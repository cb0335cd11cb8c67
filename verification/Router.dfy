/**
 The router (core/router.go): commands to handler chains, and a pool of contexts that calls of
 Serve reuse, first as a class and then with any number of calls interleaved.
*/
module Routers {
  import opened Endian
  import opened SessionStore
  import opened Packets
  import opened Contexts
  import Runs

  type FuncTree = map<bytes, seq<HandleFunc>>

  /** What Serve runs: the first handler registered for the command, unless it is nil. */
  function FirstHandler(nodes: FuncTree, command: bytes): Option<HandleFunc> {
    if command in nodes && nodes[command] != [] && nodes[command][0] != NIL_HANDLER
    then Some(nodes[command][0]) else None
  }

  /** All a handler can see of its context. */
  datatype View<!D, !S> = View(
    request: Option<Packet>, dispatcher: D, storage: S, session: Option<Session>,
    handlers: seq<HandleFunc>, index: nat)

  class Router {
    var nodes: FuncTree
    var pool: set<Context>

    constructor ()
      ensures nodes == map[] && pool == {}
    {
      nodes, pool := map[], {};
    }

    /** Handlers registered later come later: what a command runs is settled by its first registration. */
    method Handle(command: bytes, handlers: seq<HandleFunc>)
      modifies this`nodes
      ensures nodes == old(nodes)[command := (if command in old(nodes) then old(nodes)[command] else []) + handlers]
      ensures forall c | c != command || (c in old(nodes) && old(nodes)[c] != []) ::
        FirstHandler(nodes, c) == FirstHandler(old(nodes), c)
      ensures command !in old(nodes) && handlers != [] ==>
        FirstHandler(nodes, command) == if handlers[0] == NIL_HANDLER then None else Some(handlers[0])
    {
      nodes := nodes[command := (if command in nodes then nodes[command] else []) + handlers];
    }

    /** sync.Pool: some pooled context, whatever state it was left in, or a new one. */
    method GetFromPool() returns (ctx: Context)
      modifies this`pool
      ensures ctx in old(pool) || fresh(ctx)
      ensures pool == old(pool) - {ctx}
    {
      var reuse: bool := *;
      if reuse && pool != {} {
        ctx :| ctx in pool;
        pool := pool - {ctx};
      } else {
        ctx := new Context();
        assert ctx !in pool;
        assert pool == pool - {ctx};
      }
    }

    /** The handler sees this call's arguments and nothing of the context's past. */
    method Serve(packet: Packet, dispatcher: Dispatcher?, cache: RedisStorage?, session: Option<Session>)
      returns (ok: bool, ran: Option<HandleFunc>, ghost seen: View<Dispatcher?, RedisStorage?>)
      modifies this`pool, pool
      ensures ok <==> dispatcher != null && cache != null
      ensures !ok ==> ran == None && pool == old(pool)
      ensures ok ==> ran == FirstHandler(nodes, packet.command)
      ensures ok ==>
        seen == View(Some(packet), dispatcher, cache, session,
                     if packet.command in nodes then nodes[packet.command] else [],
                     if packet.command in nodes && nodes[packet.command] != [] then 1 else 0)
      ensures pool >= old(pool) && fresh(pool - old(pool))
    {
      seen := View(None, dispatcher, cache, None, [], 0);
      if dispatcher == null {
        return false, None, seen;
      }
      if cache == null {
        return false, None, seen;
      }
      var ctx := GetFromPool();
      ctx.Reset();
      ctx.request := Some(packet);
      ctx.dispatcher := dispatcher;
      ctx.storage := cache;
      ctx.session := session;
      if packet.command !in nodes {
        ctx.handlers := [];
      } else {
        ctx.handlers := nodes[packet.command];
      }
      ran := ctx.Next();
      seen := View(ctx.request, ctx.dispatcher, ctx.storage, ctx.session, ctx.handlers, ctx.index);
      pool := pool + {ctx};
      ok := true;
    }
  }

  // ----- any number of calls of Serve at once

  type CtxId = nat
  type CallId = nat
  type Ref = nat  // a dispatcher or a storage

  /** The fields of a pooled context. */
  datatype Fields = Fields(view: View<Option<Ref>, Option<Ref>>)

  const BLANK := Fields(View(None, None, None, None, [], 0))

  datatype Args = Args(packet: Packet, dispatcher: Ref, cache: Ref, session: Option<Session>)

  /** The statements of Serve and serveContext between Get and Put, one step each. */
  datatype Pc =
    | Entered | Taken | ResetDone | RequestSet | DispatcherSet | CacheSet | SessionSet | HandlersSet | Running | Left

  datatype Call = Call(args: Args, pc: Pc, ctx: CtxId, ran: Option<HandleFunc>, seen: Fields) {
    predicate Holds() {
      pc != Entered && pc != Left
    }

    predicate HasRun() {
      pc == Running || pc == Left
    }
  }

  datatype State = State(pool: set<CtxId>, ctxs: map<CtxId, Fields>, calls: map<CallId, Call>)

  datatype Step =
    | Enter(id: CallId, args: Args)
    | Reuse(id: CallId, c: CtxId)
    | Allocate(id: CallId, c: CtxId)
    | Forget(c: CtxId)                     // the pool may drop a context at any time
    | Advance(id: CallId)                  // the next statement of a call
    | Scribble(id: CallId, fields: Fields) // the running handler writes its context
    | PutBack(id: CallId)

  predicate Enabled(s: State, step: Step) {
    match step
    case Enter(id, _) => id !in s.calls
    case Reuse(id, c) => id in s.calls && s.calls[id].pc == Entered && c in s.pool && c in s.ctxs
    case Allocate(id, c) => id in s.calls && s.calls[id].pc == Entered && c !in s.ctxs
    case Forget(c) => c in s.pool
    case Advance(id) => id in s.calls && s.calls[id].pc !in {Entered, Running, Left} && s.calls[id].ctx in s.ctxs
    case Scribble(id, _) => id in s.calls && s.calls[id].pc == Running
    case PutBack(id) => id in s.calls && s.calls[id].pc == Running
  }

  function With(s: State, id: CallId, call: Call, view: View<Option<Ref>, Option<Ref>>): State {
    s.(calls := s.calls[id := call], ctxs := s.ctxs[call.ctx := Fields(view)])
  }

  function Advanced(nodes: FuncTree, s: State, id: CallId): State
    requires Enabled(s, Advance(id))
  {
    var call := s.calls[id];
    var v := s.ctxs[call.ctx].view;
    match call.pc
    case Taken => With(s, id, call.(pc := ResetDone), v.(request := None, index := 0, handlers := [], session := None))
    case ResetDone => With(s, id, call.(pc := RequestSet), v.(request := Some(call.args.packet)))
    case RequestSet => With(s, id, call.(pc := DispatcherSet), v.(dispatcher := Some(call.args.dispatcher)))
    case DispatcherSet => With(s, id, call.(pc := CacheSet), v.(storage := Some(call.args.cache)))
    case CacheSet => With(s, id, call.(pc := SessionSet), v.(session := call.args.session))
    case SessionSet =>
      // the chain is looked up by the command of the context's own request
      var command := if v.request.Some? then v.request.value.command else [];
      With(s, id, call.(pc := HandlersSet), v.(handlers := if command in nodes then nodes[command] else []))
    case HandlersSet =>
      var has := v.index < |v.handlers|;
      var v' := v.(index := if has then v.index + 1 else v.index);
      var ran := if has && v.handlers[v.index] != NIL_HANDLER then Some(v.handlers[v.index]) else None;
      With(s, id, call.(pc := Running, ran := ran, seen := Fields(v')), v')
  }

  function Apply(nodes: FuncTree, s: State, step: Step): State
    requires Enabled(s, step)
  {
    match step
    case Enter(id, args) => s.(calls := s.calls[id := Call(args, Entered, 0, None, BLANK)])
    case Reuse(id, c) => s.(pool := s.pool - {c}, calls := s.calls[id := s.calls[id].(pc := Taken, ctx := c)])
    case Allocate(id, c) => s.(ctxs := s.ctxs[c := BLANK], calls := s.calls[id := s.calls[id].(pc := Taken, ctx := c)])
    case Forget(c) => s.(pool := s.pool - {c})
    case Advance(id) => Advanced(nodes, s, id)
    case Scribble(id, fields) => s.(ctxs := s.ctxs[s.calls[id].ctx := fields])
    case PutBack(id) => s.(pool := s.pool + {s.calls[id].ctx}, calls := s.calls[id := s.calls[id].(pc := Left)])
  }

  const INITIAL := State({}, map[], map[])

  ghost function Next(nodes: FuncTree): (State, Step, State) -> bool {
    (s, step, s') => Enabled(s, step) && s' == Apply(nodes, s, step)
  }

  ghost predicate IsRun(nodes: FuncTree, states: seq<State>, steps: seq<Step>) {
    Runs.IsRun(INITIAL, Next(nodes), states, steps)
  }

  /** No context is used by two calls, or by a call while it is in the pool. */
  ghost predicate Exclusive(s: State) {
    && (forall c | c in s.pool :: c in s.ctxs)
    && (forall id | id in s.calls && s.calls[id].Holds() :: s.calls[id].ctx in s.ctxs && s.calls[id].ctx !in s.pool)
    && (forall id, jd | id in s.calls && jd in s.calls && s.calls[id].Holds() && s.calls[jd].Holds() && id != jd ::
          s.calls[id].ctx != s.calls[jd].ctx)
  }

  function Chain(nodes: FuncTree, args: Args): seq<HandleFunc> {
    if args.packet.command in nodes then nodes[args.packet.command] else []
  }

  /** The view a call has of a context nobody used before. */
  function FreshView(nodes: FuncTree, args: Args): Fields {
    Fields(View(Some(args.packet), Some(args.dispatcher), Some(args.cache), args.session, Chain(nodes, args),
                if Chain(nodes, args) != [] then 1 else 0))
  }

  /** How much of a context a call has made its own so far. */
  predicate SetUp(nodes: FuncTree, args: Args, pc: Pc, v: View<Option<Ref>, Option<Ref>>) {
    match pc
    case Entered | Taken | Running | Left => true
    case ResetDone => v.index == 0
    case RequestSet => v.index == 0 && v.request == Some(args.packet)
    case DispatcherSet => v.index == 0 && v.request == Some(args.packet) && v.dispatcher == Some(args.dispatcher)
    case CacheSet =>
      && v.index == 0 && v.request == Some(args.packet)
      && v.dispatcher == Some(args.dispatcher) && v.storage == Some(args.cache)
    case SessionSet =>
      v == View(Some(args.packet), Some(args.dispatcher), Some(args.cache), args.session, v.handlers, 0)
    case HandlersSet =>
      v == View(Some(args.packet), Some(args.dispatcher), Some(args.cache), args.session, Chain(nodes, args), 0)
  }

  ghost predicate CallInv(nodes: FuncTree, s: State, id: CallId)
    requires id in s.calls
  {
    var call := s.calls[id];
    && (call.Holds() ==> call.ctx in s.ctxs && SetUp(nodes, call.args, call.pc, s.ctxs[call.ctx].view))
    && (call.HasRun() ==>
          call.seen == FreshView(nodes, call.args) && call.ran == FirstHandler(nodes, call.args.packet.command))
  }

  ghost predicate Inv(nodes: FuncTree, s: State) {
    Exclusive(s) && forall id | id in s.calls :: CallInv(nodes, s, id)
  }

  /** An advancing call touches its own record and its own context. */
  lemma AdvanceIsLocal(nodes: FuncTree, s: State, id: CallId)
    requires Enabled(s, Advance(id))
    ensures var s' := Advanced(nodes, s, id);
      && s'.pool == s.pool && s'.calls.Keys == s.calls.Keys && s'.ctxs.Keys == s.ctxs.Keys
      && s'.calls[id].ctx == s.calls[id].ctx && s'.calls[id].Holds()
      && (forall jd | jd in s.calls && jd != id :: s'.calls[jd] == s.calls[jd])
      && (forall c | c in s.ctxs && c != s.calls[id].ctx :: s'.ctxs[c] == s.ctxs[c])
  {
  }

  lemma AdvanceOwn(nodes: FuncTree, s: State, id: CallId)
    requires Enabled(s, Advance(id)) && CallInv(nodes, s, id)
    ensures id in Advanced(nodes, s, id).calls && CallInv(nodes, Advanced(nodes, s, id), id)
  {
  }

  lemma AdvanceKeepsInv(nodes: FuncTree, s: State, id: CallId)
    requires Inv(nodes, s) && Enabled(s, Advance(id))
    ensures Inv(nodes, Advanced(nodes, s, id))
  {
    var s' := Advanced(nodes, s, id);
    AdvanceIsLocal(nodes, s, id);
    assert CallInv(nodes, s, id);
    AdvanceOwn(nodes, s, id);
    forall jd | jd in s'.calls && jd != id ensures CallInv(nodes, s', jd) {
      assert CallInv(nodes, s, jd);
    }
  }

  lemma OtherStepIsExclusive(nodes: FuncTree, s: State, step: Step)
    requires Exclusive(s) && Enabled(s, step) && !step.Advance?
    ensures Exclusive(Apply(nodes, s, step))
  {
  }

  lemma StepKeepsInv(nodes: FuncTree, s: State, step: Step)
    requires Inv(nodes, s) && Enabled(s, step)
    ensures Inv(nodes, Apply(nodes, s, step))
  {
    if step.Advance? {
      AdvanceKeepsInv(nodes, s, step.id);
    } else {
      var s' := Apply(nodes, s, step);
      OtherStepIsExclusive(nodes, s, step);
      forall jd | jd in s'.calls ensures CallInv(nodes, s', jd) {
        assert jd in s.calls ==> CallInv(nodes, s, jd);
      }
    }
  }

  lemma {:induction false} RunKeepsInv(nodes: FuncTree, states: seq<State>, steps: seq<Step>, i: nat)
    requires IsRun(nodes, states, steps) && i < |states|
    ensures Inv(nodes, states[i])
  {
    if i == 0 {
    } else {
      RunKeepsInv(nodes, states, steps, i - 1);
      assert Runs.TakesStep(Next(nodes), states, steps, i - 1);
      StepKeepsInv(nodes, states[i - 1], steps[i - 1]);
    }
  }

  /**
   However calls interleave and whatever handlers leave behind in their contexts, each call that has run its
   handler has run the first one registered for its command, on the view a fresh context would give, and no
   two calls ever use one context.
  */
  lemma PoolIsInvisible(nodes: FuncTree, states: seq<State>, steps: seq<Step>, i: nat, id: CallId)
    requires IsRun(nodes, states, steps) && i < |states| && id in states[i].calls
    ensures states[i].calls[id].HasRun() ==>
      && states[i].calls[id].ran == FirstHandler(nodes, states[i].calls[id].args.packet.command)
      && states[i].calls[id].seen == FreshView(nodes, states[i].calls[id].args)
    ensures forall jd
      | jd in states[i].calls && jd != id && states[i].calls[id].Holds() && states[i].calls[jd].Holds() ::
      states[i].calls[id].ctx != states[i].calls[jd].ctx
  {
    RunKeepsInv(nodes, states, steps, i);
    assert CallInv(nodes, states[i], id);
  }

  // ----- the pool

  predicate PutsBack(s: State, step: Step, c: CtxId) {
    step.PutBack? && step.id in s.calls && s.calls[step.id].ctx == c
  }

  predicate TakesOut(step: Step, c: CtxId) {
    (step.Reuse? || step.Forget?) && step.c == c
  }

  ghost predicate PutBackSince(states: seq<State>, steps: seq<Step>, i: nat, c: CtxId)
    requires |states| == |steps| + 1 && i < |states|
  {
    exists k: nat | k < i :: PutsBack(states[k], steps[k], c) && forall j | k < j < i :: !TakesOut(steps[j], c)
  }

  /** The pool holds the contexts that were put back and neither taken nor forgotten since. */
  lemma {:induction false} PooledIff(nodes: FuncTree, states: seq<State>, steps: seq<Step>, i: nat, c: CtxId)
    requires IsRun(nodes, states, steps) && i < |states|
    ensures c in states[i].pool <==> PutBackSince(states, steps, i, c)
  {
    if i == 0 {
    } else {
      PooledIff(nodes, states, steps, i - 1, c);
      assert Runs.TakesStep(Next(nodes), states, steps, i - 1);
      PoolStep(nodes, states[i - 1], steps[i - 1], c);
      PutBackOneMore(states, steps, i, c);
    }
  }

  lemma PoolStep(nodes: FuncTree, s: State, step: Step, c: CtxId)
    requires Enabled(s, step)
    ensures c in Apply(nodes, s, step).pool <==> PutsBack(s, step, c) || (c in s.pool && !TakesOut(step, c))
  {
  }

  lemma PutBackOneMore(states: seq<State>, steps: seq<Step>, i: nat, c: CtxId)
    requires |states| == |steps| + 1 && 0 < i < |states|
    ensures PutBackSince(states, steps, i, c) <==>
      PutsBack(states[i - 1], steps[i - 1], c) || (PutBackSince(states, steps, i - 1, c) && !TakesOut(steps[i - 1], c))
  {
    if PutBackSince(states, steps, i - 1, c) && !TakesOut(steps[i - 1], c) {
      var k: nat :| k < i - 1 && PutsBack(states[k], steps[k], c) && forall j | k < j < i - 1 :: !TakesOut(steps[j], c);
      assert forall j | k < j < i :: !TakesOut(steps[j], c);
    }
    if PutBackSince(states, steps, i, c) {
      var k: nat :| k < i && PutsBack(states[k], steps[k], c) && forall j | k < j < i :: !TakesOut(steps[j], c);
    }
  }

  // ----- a context that is used again

  lemma Extend(nodes: FuncTree, states: seq<State>, steps: seq<Step>, step: Step)
    returns (states': seq<State>, steps': seq<Step>)
    requires IsRun(nodes, states, steps) && Enabled(states[|states| - 1], step)
    ensures IsRun(nodes, states', steps') && states <= states'
    ensures states'[|states'| - 1] == Apply(nodes, states[|states| - 1], step)
  {
    states', steps' :=
      Runs.Extend(INITIAL, Next(nodes), states, steps, step, Apply(nodes, states[|states| - 1], step));
  }

  function Remaining(pc: Pc): nat {
    match pc
    case Taken => 7
    case ResetDone => 6
    case RequestSet => 5
    case DispatcherSet => 4
    case CacheSet => 3
    case SessionSet => 2
    case HandlersSet => 1
    case _ => 0
  }

  /** A call that has its context comes to run its handler, in that context. */
  lemma {:induction false} RunsOn(nodes: FuncTree, states: seq<State>, steps: seq<Step>, id: CallId)
    returns (states': seq<State>, steps': seq<Step>)
    requires IsRun(nodes, states, steps) && id in states[|states| - 1].calls
    requires states[|states| - 1].calls[id].pc !in {Entered, Left}
    ensures IsRun(nodes, states', steps') && states <= states'
    ensures var s, s' := states[|states| - 1], states'[|states'| - 1];
      && s'.pool == s.pool && id in s'.calls && s'.calls[id].pc == Running
      && s'.calls[id].ctx == s.calls[id].ctx && s'.calls[id].args == s.calls[id].args
      && s'.calls.Keys == s.calls.Keys && s'.ctxs.Keys == s.ctxs.Keys
      && (forall jd | jd in s.calls && jd != id :: s'.calls[jd] == s.calls[jd])
    decreases Remaining(states[|states| - 1].calls[id].pc)
  {
    var s := states[|states| - 1];
    if s.calls[id].pc == Running {
      states', steps' := states, steps;
    } else {
      RunKeepsInv(nodes, states, steps, |states| - 1);
      assert CallInv(nodes, s, id);
      AdvanceIsLocal(nodes, s, id);
      AdvanceComesOn(nodes, s, id);
      states', steps' := Extend(nodes, states, steps, Advance(id));
      states', steps' := RunsOn(nodes, states', steps', id);
    }
  }

  lemma AdvanceComesOn(nodes: FuncTree, s: State, id: CallId)
    requires Enabled(s, Advance(id))
    ensures var s' := Advanced(nodes, s, id);
      && s'.calls[id].args == s.calls[id].args && s'.calls[id].pc !in {Entered, Left}
      && Remaining(s'.calls[id].pc) < Remaining(s.calls[id].pc)
  {
  }

  /** The call has just got a context whose fields are as given. */
  predicate TookOver(s: State, id: CallId, fields: Fields) {
    id in s.calls && s.calls[id].pc == Taken && s.calls[id].ctx in s.ctxs && s.ctxs[s.calls[id].ctx] == fields
  }

  /** Two calls, one after the other, on one context that the first one's handler has written all over. */
  lemma ContextIsReused(nodes: FuncTree, a: Args, b: Args, left: Fields)
    returns (states: seq<State>, steps: seq<Step>)
    ensures IsRun(nodes, states, steps)
    ensures var s := states[|states| - 1];
      && 0 in s.calls && 1 in s.calls && s.calls[0].pc == Left && s.calls[1].pc == Running
      && s.calls[0].args == a && s.calls[1].args == b && s.calls[0].ctx == s.calls[1].ctx
      && s.ctxs.Keys == {s.calls[1].ctx} && s.pool == {}
    ensures exists i :: 0 <= i < |states| && TookOver(states[i], 1, left)
  {
    states, steps := [INITIAL], [];
    states, steps := Extend(nodes, states, steps, Enter(0, a));
    states, steps := Extend(nodes, states, steps, Allocate(0, 0));
    states, steps := RunsOn(nodes, states, steps, 0);
    states, steps := Extend(nodes, states, steps, Scribble(0, left));
    states, steps := Extend(nodes, states, steps, PutBack(0));
    states, steps := Extend(nodes, states, steps, Enter(1, b));
    states, steps := Extend(nodes, states, steps, Reuse(1, 0));
    var i := |states| - 1;
    assert TookOver(states[i], 1, left);
    states, steps := RunsOn(nodes, states, steps, 1);
    assert TookOver(states[i], 1, left);
  }
}
