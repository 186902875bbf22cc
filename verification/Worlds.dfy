/**
 * Whole runs: the storage contract, the deployed logic-contract instances of this code, the clock,
 * and the history of accepted calls. Reverting calls leave everything but the clock alone.
 */
module Worlds {
  import opened Wrappers
  import opened ProtocolTypes
  import opened Storage
  import opened Registry

  /** An accepted call: where it ran, what it found, how the gate left the store, what it did. */
  datatype Entry = Entry(env: Env, call: Call, before: Store, logic: Logic, gated: Store, after: Effects)

  /**
   * `logics` holds the initialized instances of this code by address. The storage contract may
   * name an address that is not among them; then nothing can change it.
   */
  datatype World = World(crypto: Crypto, store: Store, logics: map<Address, Logic>, now: nat, history: seq<Entry>)

  datatype Tx =
    /** Deploy and initialize an instance. */
    | Deploy(address: Address, verifier: Address, now: nat)
    | Transact(target: Address, call: Call, now: nat, block: nat)

  function EnvOf(w: World, tx: Tx): Env
    requires tx.Transact?
  {
    Env(w.crypto, tx.target, tx.now, tx.block)
  }

  /** The call is addressed to an instance and that instance accepts it. */
  predicate Accepts(w: World, tx: Tx) {
    tx.Transact? && tx.target in w.logics && Admit(EnvOf(w, tx), w.store, w.logics[tx.target], tx.call).Success?
  }

  function EntryOf(w: World, tx: Tx): Entry
    requires Accepts(w, tx)
  {
    var e, l := EnvOf(w, tx), w.logics[tx.target];
    var gated := Admit(e, w.store, l, tx.call).value;
    Entry(e, tx.call, w.store, l, gated, Effects(StoreAfter(e, gated, tx.call), LogicAfter(e, gated, l, tx.call),
                                                 EventsOf(e, gated, l, tx.call)))
  }

  function Extend(w: World, en: Entry): World {
    World(w.crypto, en.after.store, w.logics[en.env.self := en.after.logic], en.env.now, w.history + [en])
  }

  function Step(w: World, tx: Tx): World {
    if Accepts(w, tx) then Extend(w, EntryOf(w, tx))
    else if tx.Deploy? && tx.address != ZERO && tx.address !in w.logics then
      w.(logics := w.logics[tx.address := Logic(tx.verifier, NO_PENDING, "")], now := tx.now)
    else w.(now := tx.now)
  }

  /** A step is what Registry.Exec says. */
  lemma StepIsExec(w: World, tx: Tx)
    requires tx.Transact? && tx.target in w.logics
    ensures match Exec(EnvOf(w, tx), w.store, w.logics[tx.target], tx.call)
            case Success(fx) => Accepts(w, tx) && Step(w, tx) == Extend(w, EntryOf(w, tx)) && EntryOf(w, tx).after == fx
            case Failure(_) => Step(w, tx) == w.(now := tx.now)
  {
  }

  /**
   * An entry that can come next: its call passes the checks and the gate, and its effects are the
   * specified ones.
   */
  ghost predicate Follows(w: World, en: Entry) {
    && en.env.crypto == w.crypto
    && en.env.self in w.logics
    && en.logic == w.logics[en.env.self]
    && en.before == w.store
    && w.now <= en.env.now && TimeOk(en.env.now)
    && Admit(en.env, en.before, en.logic, en.call) == Success(en.gated)
    && en.after.store == StoreAfter(en.env, en.gated, en.call)
    && en.after.logic == LogicAfter(en.env, en.gated, en.logic, en.call)
    && en.after.events == EventsOf(en.env, en.gated, en.logic, en.call)
    && |w.history| + 1 < U32_RANGE
  }

  /** Block timestamps are positive and leave room for the timelocks in 64 bits. */
  predicate TimeOk(now: nat) {
    0 < now < U64_RANGE - LOGIC_UPGRADE_TIMELOCK_SECS
  }

  /** A run, from the initialization of the storage contract. */
  datatype Trace =
    | Genesis(crypto: Crypto, logic: Address, deployerKey: Bytes)
    | Then(prev: Trace, tx: Tx)

  function FirstStore(logic: Address, deployerKey: Bytes): Store {
    BLANK.(logic := logic,
           keysets := map[ROOT_POLICY_BODY := Bootstrap(deployerKey), PRESS_REGISTRY_BODY := Bootstrap(deployerKey),
                          DNS_GOVERNANCE_BODY := Bootstrap(deployerKey)])
  }

  lemma FirstStoreIsInitialized(caller: Address, logic: Address, deployerKey: Bytes)
    requires logic != ZERO && |deployerKey| == KEY_LEN
    ensures Apply(BLANK, caller, StorageCall.Initialize(logic, deployerKey)) == Success(FirstStore(logic, deployerKey))
  {
  }

  function End(t: Trace): World {
    match t
    case Genesis(crypto, logic, key) => World(crypto, FirstStore(logic, key), map[], 0, [])
    case Then(prev, tx) => Step(End(prev), tx)
  }

  /** Time does not run backwards, and fewer than 2^32 - 1 calls have been accepted. */
  ghost predicate Valid(t: Trace) {
    match t
    case Genesis(_, logic, key) => logic != ZERO && |key| == KEY_LEN
    case Then(prev, tx) =>
      Valid(prev) && End(prev).now <= tx.now && TimeOk(tx.now) && |End(prev).history| + 1 < U32_RANGE
  }

  /** What a step of a valid run is: the next entry, or nothing but a deployment and time. */
  lemma StepCases(t: Trace)
    requires Valid(t) && t.Then?
    ensures var w, w' := End(t.prev), End(t);
            if Accepts(w, t.tx) then Follows(w, EntryOf(w, t.tx)) && w' == Extend(w, EntryOf(w, t.tx))
            else Idle(w, w')
  {
  }

  /** Nothing was accepted: storage and history are as before, and so is every instance. */
  ghost predicate Idle(w: World, w': World) {
    && w'.crypto == w.crypto
    && w'.store == w.store
    && w'.history == w.history
    && w.now <= w'.now
    && (forall a :: a in w.logics ==> a in w'.logics && w'.logics[a] == w.logics[a])
    && (forall a :: a in w'.logics && a !in w.logics ==> w'.logics[a].pendingVerifier == NO_PENDING)
  }

  /** The last step of a run, as an entry when it accepted one. */
  lemma LastStep(t: Trace) returns (en: Option<Entry>)
    requires Valid(t) && t.Then?
    ensures Valid(t.prev)
    ensures en.Some? ==> Follows(End(t.prev), en.value) && End(t) == Extend(End(t.prev), en.value)
    ensures en.Some? ==> t.tx.Transact? && en.value.call == t.tx.call && en.value.env.self == t.tx.target
    ensures en.None? ==> Idle(End(t.prev), End(t))
  {
    hide Admit;
    hide Follows;
    hide Idle;
    hide Step;
    hide Extend;
    StepCases(t);
    en := if Accepts(End(t.prev), t.tx) then Some(EntryOf(End(t.prev), t.tx)) else None;
  }

  /** A run carried on. */
  function Longer(t: Trace, txs: seq<Tx>): Trace {
    if txs == [] then t else Then(Longer(t, txs[..|txs| - 1]), txs[|txs| - 1])
  }

  lemma {:induction false} LongerValid(t: Trace, txs: seq<Tx>)
    requires Valid(Longer(t, txs))
    ensures Valid(t)
    decreases |txs|
  {
    hide Admit;
    if txs != [] {
      LongerValid(t, txs[..|txs| - 1]);
    }
  }

  /** The events of a history, oldest first. */
  function Log(history: seq<Entry>): seq<Event> {
    if history == [] then [] else Log(history[..|history| - 1]) + history[|history| - 1].after.events
  }

  lemma LogExtend(history: seq<Entry>, en: Entry)
    ensures Log(history + [en]) == Log(history) + en.after.events
  {
    assert (history + [en])[..|history|] == history;
  }

  /** Every accepted call came from the address that the storage contract named. */
  lemma OnlyCurrentLogicActs(w: World, en: Entry)
    requires Follows(w, en)
    ensures en.env.self == w.store.logic
  {
    hide PreCheck;
    hide Authorize;
    hide PostCheck;
  }

  /** What the gate can change. */
  lemma GateEffect(e: Env, s: Store, l: Logic, g: Gate)
    requires Authorize(e, s, l, g).Success?
    ensures var t := Authorize(e, s, l, g).value;
            match g
            case Press(policy, stamp, op, bumps) =>
              PressGate(e, s, l, policy, stamp, op).Success? && t == if bumps then Bump(s, policy, stamp.press) else s
            case Governed(body, gov) =>
              && QuorumGate(e, s, l, body, gov).Success?
              && t == s.(usedNonces := s.usedNonces + {QuorumGate(e, s, l, body, gov).value.nonce})
            case CoSigned(_, _) => t == s
            case KeyScheme(_, _, _, _) => t == s
  {
  }

  /** The four stages an accepted call has passed. */
  lemma Stages(w: World, en: Entry)
    requires Follows(w, en)
    ensures PreCheck(en.env, en.before, en.logic, en.call).Success?
    ensures Authorize(en.env, en.before, en.logic, GateOf(en.before, en.call)) == Success(en.gated)
    ensures PostCheck(en.env, en.gated, en.call).Success?
    ensures en.env.self == en.before.logic
  {
    hide PreCheck;
    hide Authorize;
    hide PostCheck;
    hide GateOf;
  }

  /** The gate touches press sequences and nonces only. */
  lemma GatedFrame(w: World, en: Entry)
    requires Follows(w, en)
    ensures en.gated == en.before.(presses := en.gated.presses, usedNonces := en.gated.usedNonces)
  {
    Stages(w, en);
    hide PreCheck;
    hide PostCheck;
    hide GateOf;
    GateEffect(en.env, en.before, en.logic, GateOf(en.before, en.call));
  }
}
