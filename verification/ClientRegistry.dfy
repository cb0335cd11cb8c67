/**
 Any number of goroutines that build, promote and remove clients of one service at the same time
 (container/container.go, container/clients.go). Building holds the container's lock; promoting,
 and removing a client whose reader has ended, do not.
*/
module ClientRegistry {
  import opened Endian
  import Runs

  type Tid = nat
  type ServiceId = nat
  type MetaId = nat    // a registration's meta map, which its client shares
  type ClientId = nat

  datatype ServiceState = Young | Adult

  /** buildClient: wait for the lock, check, connect and start the reader, add, unlock. */
  datatype BuilderPc = Waiting | Locked | Cleared | Started(client: ClientId) | Added | Done

  datatype Builder = Builder(service: ServiceId, meta: MetaId, pc: BuilderPc) {
    predicate HoldsLock() {
      pc != Waiting && pc != Done
    }
  }

  /** The goroutine buildClient starts: readloop, Remove, Close. */
  datatype Reader = Reading | Ended | Removed | Closed

  datatype Client = Client(service: ServiceId, meta: MetaId, reader: Reader) {
    /** The reader has still to run its Remove. */
    predicate WillRemove() {
      reader == Reading || reader == Ended
    }
  }

  /** `added` and `early` are history: clients registered at some time, and those whose Remove came before that. */
  datatype State = State(
    lock: Option<Tid>, builders: map<Tid, Builder>, registry: map<ServiceId, ClientId>,
    clients: map<ClientId, Client>, metas: map<MetaId, ServiceState>, sleeping: set<MetaId>,
    added: set<ClientId>, early: set<ClientId>)

  datatype Step =
    | Watch(t: Tid, service: ServiceId, meta: MetaId)
    | Find(t: Tid, service: ServiceId, meta: MetaId)
    | Promote(meta: MetaId)
    | Lock(t: Tid)
    | Check(t: Tid)
    | Fail(t: Tid)
    | Connect(t: Tid, client: ClientId)
    | Add(t: Tid)
    | Unlock(t: Tid)
    | ReaderEnds(client: ClientId)
    | ReaderRemoves(client: ClientId)
    | ReaderCloses(client: ClientId)

  predicate BuilderAt(s: State, t: Tid, pc: BuilderPc) {
    t in s.builders && s.builders[t].pc == pc
  }

  /** Every registration reported by the naming service brings a meta map of its own. */
  predicate Enabled(s: State, step: Step) {
    match step
    case Watch(t, service, meta) => t !in s.builders && meta !in s.metas && service !in s.registry
    case Find(t, _, meta) => t !in s.builders && meta !in s.metas
    case Promote(meta) => meta in s.sleeping
    case Lock(t) => BuilderAt(s, t, Waiting) && s.lock == None
    case Check(t) => BuilderAt(s, t, Locked)
    case Fail(t) => BuilderAt(s, t, Cleared)
    case Connect(t, client) => BuilderAt(s, t, Cleared) && client !in s.clients
    case Add(t) => t in s.builders && s.builders[t].pc.Started?
    case Unlock(t) => BuilderAt(s, t, Added)
    case ReaderEnds(c) => c in s.clients && s.clients[c].reader == Reading
    case ReaderRemoves(c) => c in s.clients && s.clients[c].reader == Ended
    case ReaderCloses(c) => c in s.clients && s.clients[c].reader == Removed
  }

  function BuilderTo(s: State, t: Tid, pc: BuilderPc): State
    requires t in s.builders
  {
    s.(builders := s.builders[t := s.builders[t].(pc := pc)])
  }

  function ReaderTo(s: State, c: ClientId, reader: Reader): State
    requires c in s.clients
  {
    s.(clients := s.clients[c := s.clients[c].(reader := reader)])
  }

  function Apply(s: State, step: Step): State
    requires Enabled(s, step)
  {
    match step
    case Watch(t, service, meta) =>
      s.(builders := s.builders[t := Builder(service, meta, Waiting)],
         metas := s.metas[meta := Young], sleeping := s.sleeping + {meta})
    case Find(t, service, meta) =>
      s.(builders := s.builders[t := Builder(service, meta, Waiting)], metas := s.metas[meta := Adult])
    case Promote(meta) => s.(metas := s.metas[meta := Adult], sleeping := s.sleeping - {meta})
    case Lock(t) => BuilderTo(s, t, Locked).(lock := Some(t))
    case Check(t) =>
      if s.builders[t].service in s.registry then BuilderTo(s, t, Done).(lock := None) else BuilderTo(s, t, Cleared)
    case Fail(t) => BuilderTo(s, t, Done).(lock := None)
    case Connect(t, c) =>
      BuilderTo(s, t, Started(c)).(
        clients := s.clients[c := Client(s.builders[t].service, s.builders[t].meta, Reading)])
    case Add(t) =>
      var c := s.builders[t].pc.client;
      BuilderTo(s, t, Added).(
        registry := s.registry[s.builders[t].service := c], added := s.added + {c},
        early := s.early + (if c in s.clients && !s.clients[c].WillRemove() then {c} else {}))
    case Unlock(t) => BuilderTo(s, t, Done).(lock := None)
    case ReaderEnds(c) => ReaderTo(s, c, Ended)
    case ReaderRemoves(c) => ReaderTo(s, c, Removed).(registry := s.registry - {s.clients[c].service})
    case ReaderCloses(c) => ReaderTo(s, c, Closed)
  }

  const INITIAL := State(None, map[], map[], map[], map[], {}, {}, {})

  ghost predicate Next(s: State, step: Step, s': State) {
    Enabled(s, step) && s' == Apply(s, step)
  }

  ghost predicate IsRun(states: seq<State>, steps: seq<Step>) {
    Runs.IsRun(INITIAL, Next, states, steps)
  }

  // ----- what every step keeps

  /** The lock is held by the one builder between Lock and its return, which has found its service unregistered. */
  ghost predicate LockInv(s: State) {
    && (forall t | t in s.builders :: s.builders[t].HoldsLock() <==> s.lock == Some(t))
    && (s.lock.Some? ==> s.lock.value in s.builders)
    && (forall t | t in s.builders && (s.builders[t].pc == Cleared || s.builders[t].pc.Started?) ::
          s.builders[t].service !in s.registry)
  }

  ghost predicate RegistryInv(s: State) {
    forall id | id in s.registry ::
      s.registry[id] in s.clients && s.clients[s.registry[id]].service == id && s.registry[id] in s.added
  }

  /** Client c is being built by t. */
  ghost predicate Building(s: State, t: Tid, c: ClientId) {
    t in s.builders && s.builders[t].pc == Started(c)
  }

  ghost predicate BuildingInv(s: State) {
    && (forall t | t in s.builders && s.builders[t].pc.Started? ::
          var c := s.builders[t].pc.client;
          && c in s.clients && c !in s.added
          && s.clients[c].service == s.builders[t].service && s.clients[c].meta == s.builders[t].meta)
    && s.added <= s.clients.Keys && s.early <= s.added
  }

  /** A client whose reader has its Remove ahead of it is registered or being built. */
  ghost predicate ReaderInv(s: State) {
    && (forall c | c in s.clients && s.clients[c].WillRemove() ::
          (s.clients[c].service in s.registry && s.registry[s.clients[c].service] == c)
          || exists t :: Building(s, t, c))
    && (forall c | c in s.early && c in s.clients :: !s.clients[c].WillRemove())
    && (forall c | c in s.added && c in s.clients && c !in s.early && !s.clients[c].WillRemove() ::
          s.clients[c].service in s.registry ==> s.registry[s.clients[c].service] != c)
  }

  ghost predicate MetaInv(s: State) {
    && (forall m | m in s.metas :: s.metas[m] == Young <==> m in s.sleeping)
    && s.sleeping <= s.metas.Keys
    && (forall c | c in s.clients :: s.clients[c].meta in s.metas)
    && (forall t | t in s.builders :: s.builders[t].meta in s.metas)
  }

  ghost predicate Inv(s: State) {
    LockInv(s) && RegistryInv(s) && BuildingInv(s) && ReaderInv(s) && MetaInv(s)
  }

  lemma LockStep(s: State, step: Step)
    requires LockInv(s) && Enabled(s, step)
    ensures LockInv(Apply(s, step))
  {
  }

  lemma MetaStep(s: State, step: Step)
    requires MetaInv(s) && BuildingInv(s) && Enabled(s, step)
    ensures MetaInv(Apply(s, step))
  {
  }

  lemma BuildingStep(s: State, step: Step)
    requires LockInv(s) && BuildingInv(s) && Enabled(s, step)
    ensures BuildingInv(Apply(s, step))
  {
  }

  lemma LockKeepsReaders(s: State, t: Tid)
    requires Inv(s) && Enabled(s, Lock(t))
    ensures RegistryInv(Apply(s, Lock(t))) && ReaderInv(Apply(s, Lock(t)))
  {
    assert forall u, c :: Building(s, u, c) ==> s.builders[u].HoldsLock();
  }

  lemma HolderKeepsReaders(s: State, step: Step)
    requires Inv(s) && Enabled(s, step)
    requires step.Check? || step.Fail? || step.Unlock?
    ensures RegistryInv(Apply(s, step)) && ReaderInv(Apply(s, step))
  {
    var s' := Apply(s, step);
    assert s'.registry == s.registry && s'.clients == s.clients && s'.metas == s.metas;
    assert s.lock == Some(step.t);
    assert forall t, c :: !Building(s, t, c);
  }

  lemma NewBuilderKeepsReaders(s: State, step: Step)
    requires Inv(s) && Enabled(s, step)
    requires step.Watch? || step.Find? || step.Promote?
    ensures RegistryInv(Apply(s, step)) && ReaderInv(Apply(s, step))
  {
    var s' := Apply(s, step);
    assert s'.registry == s.registry && s'.clients == s.clients;
    forall t, c | Building(s, t, c) ensures Building(s', t, c) {
    }
  }

  lemma ConnectKeepsReaders(s: State, t: Tid, c: ClientId)
    requires Inv(s) && Enabled(s, Connect(t, c))
    ensures RegistryInv(Apply(s, Connect(t, c))) && ReaderInv(Apply(s, Connect(t, c)))
  {
    var s' := Apply(s, Connect(t, c));
    assert Building(s', t, c);
    assert forall u, d :: !Building(s, u, d);
  }

  lemma AddKeepsReaders(s: State, t: Tid)
    requires Inv(s) && Enabled(s, Add(t))
    ensures RegistryInv(Apply(s, Add(t))) && ReaderInv(Apply(s, Add(t)))
  {
    var s', c := Apply(s, Add(t)), s.builders[t].pc.client;
    forall u, d | Building(s, u, d) ensures u == t && d == c {
      assert s.builders[u].HoldsLock() && s.builders[t].HoldsLock();
    }
    assert forall d | d in s.clients && s.clients[d].WillRemove() && d != c :: s'.registry[s.clients[d].service] == d;
  }

  lemma ReaderKeepsReaders(s: State, step: Step)
    requires Inv(s) && Enabled(s, step)
    requires step.ReaderEnds? || step.ReaderCloses?
    ensures RegistryInv(Apply(s, step)) && ReaderInv(Apply(s, step))
  {
    var s' := Apply(s, step);
    assert s'.registry == s.registry && s'.builders == s.builders;
    forall t, c | Building(s, t, c) ensures Building(s', t, c) {
    }
  }

  lemma RemoveKeepsReaders(s: State, c: ClientId)
    requires Inv(s) && Enabled(s, ReaderRemoves(c))
    ensures RegistryInv(Apply(s, ReaderRemoves(c))) && ReaderInv(Apply(s, ReaderRemoves(c)))
  {
    var s' := Apply(s, ReaderRemoves(c));
    RemovesOwnOrNothing(s, c);
    forall t, d | Building(s, t, d) ensures Building(s', t, d) {
    }
  }

  /** A reader's Remove never takes away another client's registration. */
  lemma RemovesOwnOrNothing(s: State, c: ClientId)
    requires Inv(s) && Enabled(s, ReaderRemoves(c))
    ensures s.clients[c].service in s.registry ==> s.registry[s.clients[c].service] == c
  {
    assert s.clients[c].WillRemove();
    if t :| Building(s, t, c) {
      assert s.builders[t].service == s.clients[c].service;
    }
  }

  lemma StepKeepsInv(s: State, step: Step)
    requires Inv(s) && Enabled(s, step)
    ensures Inv(Apply(s, step))
  {
    LockStep(s, step);
    MetaStep(s, step);
    BuildingStep(s, step);
    match step
    case Lock(t) => LockKeepsReaders(s, t);
    case Check(_) | Fail(_) | Unlock(_) => HolderKeepsReaders(s, step);
    case Watch(_, _, _) | Find(_, _, _) | Promote(_) => NewBuilderKeepsReaders(s, step);
    case Connect(t, c) => ConnectKeepsReaders(s, t, c);
    case Add(t) => AddKeepsReaders(s, t);
    case ReaderRemoves(c) => RemoveKeepsReaders(s, c);
    case ReaderEnds(_) | ReaderCloses(_) => ReaderKeepsReaders(s, step);
  }

  lemma {:induction false} RunKeepsInv(states: seq<State>, steps: seq<Step>, i: nat)
    requires IsRun(states, steps) && i < |states|
    ensures Inv(states[i])
  {
    if i == 0 {
    } else {
      RunKeepsInv(states, steps, i - 1);
      assert Runs.TakesStep(Next, states, steps, i - 1);
      StepKeepsInv(states[i - 1], steps[i - 1]);
    }
  }

  /**
   In every run, a connection is started and added only while its service has no registered client, so no
   registration is ever replaced; and a registration is taken away only by its own client's reader.
  */
  lemma RegistrationsAreNotReplaced(states: seq<State>, steps: seq<Step>, i: nat, id: ServiceId)
    requires IsRun(states, steps) && i < |steps|
    ensures steps[i].Connect? || steps[i].Add? ==>
      steps[i].t in states[i].builders && states[i].builders[steps[i].t].service !in states[i].registry
    ensures id in states[i].registry && id in states[i + 1].registry ==>
      states[i + 1].registry[id] == states[i].registry[id]
    ensures id in states[i].registry && id !in states[i + 1].registry ==>
      steps[i] == ReaderRemoves(states[i].registry[id])
  {
    RunKeepsInv(states, steps, i);
    assert Runs.TakesStep(Next, states, steps, i);
    StepKeepsRegistration(states[i], steps[i], id);
  }

  lemma StepKeepsRegistration(s: State, step: Step, id: ServiceId)
    requires Inv(s) && Enabled(s, step)
    ensures step.Connect? || step.Add? ==> step.t in s.builders && s.builders[step.t].service !in s.registry
    ensures id in s.registry && id in Apply(s, step).registry ==> Apply(s, step).registry[id] == s.registry[id]
    ensures id in s.registry && id !in Apply(s, step).registry ==> step == ReaderRemoves(s.registry[id])
  {
    if step.ReaderRemoves? {
      RemovesOwnOrNothing(s, step.client);
    }
  }

  /** A registered client's reader has its Remove ahead of it, unless that Remove ran before the Add. */
  lemma RegisteredReader(states: seq<State>, steps: seq<Step>, i: nat, id: ServiceId)
    requires IsRun(states, steps) && i < |states| && id in states[i].registry
    ensures var c := states[i].registry[id];
      c in states[i].clients && (states[i].clients[c].WillRemove() <==> c !in states[i].early)
  {
    RunKeepsInv(states, steps, i);
  }

  ghost predicate RegisteredEarly(s: State, id: ServiceId, c: ClientId) {
    id in s.registry && s.registry[id] == c && c in s.early
  }

  lemma EarlyStays(states: seq<State>, steps: seq<Step>, i: nat, id: ServiceId, c: ClientId)
    requires IsRun(states, steps) && i < |steps|
    requires RegisteredEarly(states[i], id, c)
    ensures RegisteredEarly(states[i + 1], id, c)
  {
    RunKeepsInv(states, steps, i);
    assert Runs.TakesStep(Next, states, steps, i);
    StepKeepsRegistration(states[i], steps[i], id);
    EarlyReaderIsDone(states[i], steps[i], c);
  }

  lemma EarlyReaderIsDone(s: State, step: Step, c: ClientId)
    requires Inv(s) && Enabled(s, step) && c in s.early
    ensures step != ReaderRemoves(c) && c in Apply(s, step).early
  {
  }

  /** A client whose reader's Remove ran before the Add stays registered for good, and bars its service's way back. */
  lemma {:induction false} EarlyStaysForever(
    states: seq<State>, steps: seq<Step>, i: nat, j: nat, id: ServiceId, c: ClientId)
    requires IsRun(states, steps) && i <= j < |states|
    requires RegisteredEarly(states[i], id, c)
    ensures RegisteredEarly(states[j], id, c)
    decreases j - i
  {
    if i == j {
    } else {
      EarlyStaysForever(states, steps, i, j - 1, id, c);
      EarlyStays(states, steps, j - 1, id, c);
    }
  }

  /** What lookup may choose from: registered clients whose meta says adult. */
  ghost predicate Eligible(s: State, c: ClientId) {
    c in s.clients && s.clients[c].service in s.registry && s.registry[s.clients[c].service] == c
    && s.clients[c].meta in s.metas && s.metas[s.clients[c].meta] == Adult
  }

  /** A registered client may be chosen exactly when no promotion of its own registration is outstanding. */
  lemma EligibleIff(states: seq<State>, steps: seq<Step>, i: nat, id: ServiceId)
    requires IsRun(states, steps) && i < |states| && id in states[i].registry
    ensures states[i].registry[id] in states[i].clients
    ensures Eligible(states[i], states[i].registry[id]) <==>
      states[i].clients[states[i].registry[id]].meta !in states[i].sleeping
  {
    RunKeepsInv(states, steps, i);
  }

  /** From Watch to Promote a client of that registration is never eligible; from Promote on its meta stays adult. */
  lemma {:induction false} PromotionDecides(
    states: seq<State>, steps: seq<Step>, i: nat, j: nat, meta: MetaId, c: ClientId)
    requires IsRun(states, steps) && i < j < |states|
    requires c in states[j].clients && states[j].clients[c].meta == meta
    requires steps[i].Watch? && steps[i].meta == meta
    requires forall k | i < k < j :: steps[k] != Promote(meta)
    ensures meta in states[j].sleeping && !Eligible(states[j], c)
    ensures j < |steps| && steps[j] == Promote(meta) ==>
      meta in states[j + 1].metas && states[j + 1].metas[meta] == Adult
    decreases j
  {
    Asleep(states, steps, i, j, meta);
    RunKeepsInv(states, steps, j);
    if j < |steps| {
      assert Runs.TakesStep(Next, states, steps, j);
    }
  }

  lemma {:induction false} Asleep(states: seq<State>, steps: seq<Step>, i: nat, j: nat, meta: MetaId)
    requires IsRun(states, steps) && i < j < |states|
    requires steps[i].Watch? && steps[i].meta == meta
    requires forall k | i < k < j :: steps[k] != Promote(meta)
    ensures meta in states[j].sleeping
  {
    assert Runs.TakesStep(Next, states, steps, j - 1);
    if i < j - 1 {
      Asleep(states, steps, i, j - 1, meta);
    }
  }

  /** Once adult, a meta stays adult. */
  lemma {:induction false} AdultForGood(states: seq<State>, steps: seq<Step>, i: nat, j: nat, meta: MetaId)
    requires IsRun(states, steps) && i <= j < |states|
    requires meta in states[i].metas && states[i].metas[meta] == Adult
    ensures meta in states[j].metas && states[j].metas[meta] == Adult
    decreases j - i
  {
    if i == j {
    } else {
      AdultForGood(states, steps, i, j - 1, meta);
      assert Runs.TakesStep(Next, states, steps, j - 1);
      AdultStays(states[j - 1], steps[j - 1], meta);
    }
  }

  lemma AdultStays(s: State, step: Step, meta: MetaId)
    requires Enabled(s, step) && meta in s.metas && s.metas[meta] == Adult
    ensures meta in Apply(s, step).metas && Apply(s, step).metas[meta] == Adult
  {
  }

  lemma Extend(states: seq<State>, steps: seq<Step>, step: Step)
    returns (states': seq<State>, steps': seq<Step>)
    requires IsRun(states, steps) && Enabled(states[|states| - 1], step)
    ensures IsRun(states', steps')
    ensures states'[|states'| - 1] == Apply(states[|states| - 1], step) && states' == states + [states'[|states'| - 1]]
  {
    states', steps' := Runs.Extend(INITIAL, Next, states, steps, step, Apply(states[|states| - 1], step));
  }

  /** The lock is free again when its holder has returned, so that whoever waits can take it. */
  lemma LockIsHandedOn(states: seq<State>, steps: seq<Step>, k: nat, u: Tid)
    requires IsRun(states, steps) && k < |steps|
    requires steps[k].Fail? || steps[k].Unlock?
      || (steps[k].Check? && steps[k].t in states[k].builders
          && states[k].builders[steps[k].t].service in states[k].registry)
    requires BuilderAt(states[k + 1], u, Waiting)
    ensures Enabled(states[k + 1], Lock(u)) && BuilderAt(states[k + 1], steps[k].t, Done)
  {
    assert Runs.TakesStep(Next, states, steps, k);
  }

  /** Whatever the others do, the holder of the lock and every reader can make their next step. */
  lemma BuildersGoOn(s: State, t: Tid, c: ClientId, unused: ClientId)
    requires unused !in s.clients
    ensures t in s.builders ==>
      match s.builders[t].pc
      case Waiting => s.lock == None ==> Enabled(s, Lock(t))
      case Locked => Enabled(s, Check(t))
      case Cleared => Enabled(s, Fail(t)) && Enabled(s, Connect(t, unused))
      case Started(_) => Enabled(s, Add(t))
      case Added => Enabled(s, Unlock(t))
      case Done => true
    ensures c in s.clients ==>
      match s.clients[c].reader
      case Reading => Enabled(s, ReaderEnds(c))
      case Ended => Enabled(s, ReaderRemoves(c))
      case Removed => Enabled(s, ReaderCloses(c))
      case Closed => true
  {
  }

  /** A watched service's client: registered but not eligible, and eligible once its promotion has run. */
  lemma PromotedClientIsEligible(t: Tid, id: ServiceId, meta: MetaId, c: ClientId)
    returns (states: seq<State>, steps: seq<Step>)
    ensures IsRun(states, steps) && |states| >= 2
    ensures var s, s' := states[|states| - 2], states[|states| - 1];
      && s.lock == None && id in s.registry && s.registry[id] == c && c in s.clients && s.clients[c].service == id
      && !Eligible(s, c) && Eligible(s', c)
  {
    states, steps := [INITIAL], [];
    states, steps := Extend(states, steps, Watch(t, id, meta));
    states, steps := Extend(states, steps, Lock(t));
    states, steps := Extend(states, steps, Check(t));
    states, steps := Extend(states, steps, Connect(t, c));
    states, steps := Extend(states, steps, Add(t));
    states, steps := Extend(states, steps, Unlock(t));
    var before := states;
    states, steps := Extend(states, steps, Promote(meta));
    assert states[|states| - 2] == before[|before| - 1];
  }

  /** The reader is started before the Add: a client can be registered when its connection is already closed. */
  lemma DeadClientCanBeRegistered() returns (states: seq<State>, steps: seq<Step>)
    ensures IsRun(states, steps)
    ensures var s := states[|states| - 1];
      0 in s.registry && Eligible(s, s.registry[0]) && s.clients[s.registry[0]].reader == Closed
  {
    states, steps := [INITIAL], [];
    states, steps := Extend(states, steps, Find(0, 0, 0));
    states, steps := Extend(states, steps, Lock(0));
    states, steps := Extend(states, steps, Check(0));
    states, steps := Extend(states, steps, Connect(0, 0));
    states, steps := Extend(states, steps, ReaderEnds(0));
    states, steps := Extend(states, steps, ReaderRemoves(0));
    states, steps := Extend(states, steps, ReaderCloses(0));
    states, steps := Extend(states, steps, Add(0));
  }
}
