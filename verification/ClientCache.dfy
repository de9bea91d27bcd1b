/**
  The client runtime's view of its queue pairs (src/api/api.cpp,
  ControlClient in src/control/device_context.cpp): proxies with a cached state
  and the epoch of the connection they were made on.  The client makes requests
  of every kind on its connection; a call may be answered, or lost before or
  after the daemon handled it.  Other sessions connect and act at any time.
 */
module ClientCache {
  import opened Common
  import opened ControlPlane
  import opened ControlInv
  import opened ControlKeeps
  import opened ControlRuns
  import Registry

  datatype Proxy = Proxy(identity: nat, epoch: nat, live: bool, cachedState: nat)

  /** `up`: the daemon still holds this connection's session. */
  datatype Client = Client(connected: bool, up: bool, session: nat, epoch: nat, proxies: seq<Proxy>)

  /** `sessions`: the number of the last session the server opened (next_session_id_ - 1). */
  datatype State = State(w: World, client: Client, sessions: nat)

  datatype Delivery = Answered | LostRequest | LostResponse

  datatype Event =
    | OthersConnect                                            // another process opens a session
    | Others(action: Action)                                   // another session's request or disconnect
    | Drop                                                     // the daemon ends this client's session
    | Reconnect                                                // ensure_connected
    | CallOther(shaped: bool, request: Request, delivery: Delivery) // on contexts, domains, regions, completion queues
    | CallCreate(shaped: bool, request: Request, delivery: Delivery)
    | CallOn(proxy: nat, request: Request, delivery: Delivery) // modify, connect or destroy
    | CallQuery(proxy: nat, delivery: Delivery)

  predicate OnQp(q: Request, id: nat) {
    || (q.DoModifyQp? && q.id == id) || (q.DoConnectQp? && q.id == id) || (q.DoDestroyQp? && q.id == id)
  }

  /** A request that leaves the queue pairs alone. */
  predicate OnNoQp(q: Request) { !q.DoCreateQp? && !q.DoModifyQp? && !q.DoConnectQp? && !q.DoDestroyQp? }

  /** The proxy can be used: it is live and belongs to the current connection. */
  predicate Current(c: Client, p: Proxy) { p.live && p.epoch == c.epoch }

  /**
    A session acts only after the server opened it; what the daemon still finds
    on a connection the client gave up counts as another session's action.
   */
  predicate Enabled(st: State, e: Event) {
    var c := st.client;
    match e
    case OthersConnect => true
    case Others(a) =>
      0 < a.session <= st.sessions && (a.session == c.session ==> !c.connected) && ControlRuns.Enabled(st.w, a)
    case Drop => c.up
    case Reconnect => !c.connected
    case CallOther(shaped, q, d) =>
      && c.connected && OnNoQp(q) && ControlRuns.Enabled(st.w, Call(c.session, shaped, q)) && (d != LostRequest ==> c.up)
    case CallCreate(shaped, q, d) =>
      && c.connected && q.DoCreateQp? && ControlRuns.Enabled(st.w, Call(c.session, shaped, q)) && (d != LostRequest ==> c.up)
    case CallOn(k, q, d) =>
      && c.connected && k < |c.proxies| && OnQp(q, c.proxies[k].identity) && (d != LostRequest ==> c.up)
    case CallQuery(k, d) => c.connected && k < |c.proxies| && (d != LostRequest ==> c.up)
  }

  function SetProxy(c: Client, k: nat, p: Proxy): Client
    requires k < |c.proxies|
  {
    c.(proxies := c.proxies[k := p])
  }

  /** What the client does with the answer to a call on a proxy. */
  function Concluded(p: Proxy, q: Request, status: int): Proxy {
    if status != 0 then p
    else if q.DoModifyQp? && q.change.Decoded? && q.change.value.mask.state then p.(cachedState := q.change.value.state)
    else if q.DoConnectQp? then p.(cachedState := RTS)
    else if q.DoDestroyQp? then p.(live := false)
    else p
  }

  function Step(st: State, e: Event): State
    requires Enabled(st, e)
  {
    var c := st.client;
    match e
    case OthersConnect => st.(sessions := st.sessions + 1)
    case Others(a) => st.(w := ControlRuns.Step(st.w, a))
    case Drop => st.(w := ControlRuns.Step(st.w, Leave(c.session)), client := c.(up := false))
    case Reconnect =>
      st.(client := c.(connected := true, up := true, session := st.sessions + 1, epoch := c.epoch + 1),
          sessions := st.sessions + 1)
    case CallOther(shaped, q, d) =>
      if d == LostRequest then st.(client := c.(connected := false))
      else
        st.(w := ControlRuns.Step(st.w, Call(c.session, shaped, q)),
            client := if d == LostResponse then c.(connected := false) else c)
    case CallCreate(shaped, q, d) =>
      if d == LostRequest then st.(client := c.(connected := false))
      else
        var w' := ControlRuns.Step(st.w, Call(c.session, shaped, q));
        var reply := Handle(st.w.s, c.session, shaped, q);
        if d == LostResponse then st.(w := w', client := c.(connected := false))
        else if reply.status != 0 then st.(w := w')
        else st.(w := w', client := c.(proxies := c.proxies + [Proxy(reply.id, c.epoch, true, RESET)]))
    case CallOn(k, q, d) =>
      var p := c.proxies[k];
      if !p.live then st
      else if p.epoch != c.epoch then st.(client := SetProxy(c, k, p.(live := false)))
      else if d == LostRequest then st.(client := c.(connected := false))
      else
        var w' := ControlRuns.Step(st.w, Call(c.session, true, q));
        var reply := Handle(st.w.s, c.session, true, q);
        if d == LostResponse then st.(w := w', client := c.(connected := false))
        else st.(w := w', client := SetProxy(c, k, Concluded(p, q, reply.status)))
    case CallQuery(k, d) =>
      var p := c.proxies[k];
      if !p.live then st
      else if p.epoch != c.epoch then st.(client := SetProxy(c, k, p.(live := false)))
      else if d != Answered then st.(client := c.(connected := false))
      else
        var found := Lookup(st.w.s.qps, c.session, p.identity);
        if found.None? then st else st.(client := SetProxy(c, k, p.(cachedState := found.value.state)))
  }

  // ----- the invariant

  /** The cached state is the daemon's state. */
  predicate Agrees(w: World, session: nat, p: Proxy) {
    && p.identity in w.s.qps && w.s.qps[p.identity].owner == session
    && w.s.qps[p.identity].record.state == p.cachedState
  }

  ghost predicate Coherent(st: State) {
    var c := st.client;
    && (forall k :: 0 <= k < |c.proxies| ==> c.proxies[k].epoch <= c.epoch && c.proxies[k].identity in st.w.issued)
    && (forall i, j :: 0 <= i < j < |c.proxies| && Current(c, c.proxies[i]) && Current(c, c.proxies[j]) ==>
          c.proxies[i].identity != c.proxies[j].identity)
    && (c.connected && c.up ==>
          forall k :: 0 <= k < |c.proxies| && Current(c, c.proxies[k]) ==> Agrees(st.w, c.session, c.proxies[k]))
  }

  ghost predicate Inv(st: State) { ControlInv.Inv(st.w.s) && AllIssued(st.w) && Coherent(st) }

  // ----- other sessions do not touch our queue pairs

  lemma OthersKeepQps(w: World, session: nat, shaped: bool, q: Request, id: nat)
    requires ControlRuns.Enabled(w, Call(session, shaped, q)) && AllIssued(w)
    requires id in w.s.qps && (w.s.qps[id].owner != session || !OnQp(q, id))
    ensures var s' := Handle(w.s, session, shaped, q).s; id in s'.qps && s'.qps[id] == w.s.qps[id]
  {
    if !q.DoCreateQp? && !q.DoDestroyQp? && !q.DoModifyQp? && !q.DoConnectQp? {
      QpsUntouched(w.s, session, shaped, q);
      hide Handle;
    } else {
      hide CreateContext, DestroyContext, CreatePd, DestroyPd, RegisterMr, DeregisterMr, CreateCq, DestroyCq, ModifiedQp,
        ValidCreate, ValidRetry, AddReference, DropReference;
    }
  }

  /** A call on a proxy that agrees leaves it in agreement, or dead after a successful destroy. */
  lemma CallKeepsAgreement(w: World, c: Client, p: Proxy, q: Request)
    requires ControlInv.Inv(w.s) && AllIssued(w) && OnQp(q, p.identity) && Agrees(w, c.session, p) && p.live
    ensures var reply := Handle(w.s, c.session, true, q); var p' := Concluded(p, q, reply.status);
            && p'.identity == p.identity && p'.epoch == p.epoch
            && (p'.live ==> Agrees(World(reply.s, w.issued), c.session, p'))
  {
    hide ControlInv.Inv, AllIssued, QpStates, QpIndexed, ModifyQp, ConnectQp, DestroyQp, Move, QpStateOk;
    QpsWellFormed(w.s);
    match q
    case DoModifyQp(id, change) => ModifyQpMoves(w.s, c.session, true, id, change);
    case DoConnectQp(id, connect) => ConnectQpMoves(w.s, c.session, true, id, connect);
    case DoDestroyQp(id) => DestroyQpKeeps(w.s, c.session, true, id);
    case _ =>
  }

  // ----- every event keeps it

  /** The daemon moved on, and every proxy in use still agrees. */
  lemma CoherentAfter(st: State, w': World, c': Client)
    requires Coherent(st) && st.w.issued <= w'.issued
    requires c' == st.client.(connected := c'.connected, up := c'.up)
    requires c'.connected ==> st.client.connected
    requires c'.up ==> st.client.up
    requires c'.connected && c'.up ==>
               forall k :: 0 <= k < |c'.proxies| && Current(c', c'.proxies[k]) ==> Agrees(w', c'.session, c'.proxies[k])
    ensures Coherent(st.(w := w', client := c'))
  {
  }

  /** Every proxy in use still agrees after a request that is not about its queue pair. */
  lemma AllStillAgree(st: State, session: nat, shaped: bool, q: Request, but: nat)
    requires AllIssued(st.w) && Coherent(st) && ControlRuns.Enabled(st.w, Call(session, shaped, q))
    requires st.client.connected && st.client.up
    requires forall k :: 0 <= k < |st.client.proxies| && k != but && Current(st.client, st.client.proxies[k]) ==>
               session != st.client.session || !OnQp(q, st.client.proxies[k].identity)
    ensures forall k :: 0 <= k < |st.client.proxies| && k != but && Current(st.client, st.client.proxies[k]) ==>
              Agrees(ControlRuns.Step(st.w, Call(session, shaped, q)), st.client.session, st.client.proxies[k])
  {
    hide Handle, AllIssued;
    var c := st.client;
    forall k | 0 <= k < |c.proxies| && k != but && Current(c, c.proxies[k])
      ensures Agrees(ControlRuns.Step(st.w, Call(session, shaped, q)), c.session, c.proxies[k])
    {
      assert Agrees(st.w, c.session, c.proxies[k]);
      OthersKeepQps(st.w, session, shaped, q, c.proxies[k].identity);
    }
  }

  lemma OthersKeep(st: State, a: Action)
    requires Inv(st) && Enabled(st, Others(a))
    ensures Coherent(Step(st, Others(a)))
  {
    hide ControlInv.Inv, AllIssued, QpsEvolve, Agrees, Handle;
    ControlRuns.StepKeeps(st.w, a);
    var c, w' := st.client, ControlRuns.Step(st.w, a);
    if c.connected && c.up {
      if a.Call? { AllStillAgree(st, a.session, a.shaped, a.request, |c.proxies|); } else { LeaveKeeps(st, a.session); }
    }
    CoherentAfter(st, w', c);
  }

  lemma LeaveKeeps(st: State, session: nat)
    requires Coherent(st) && session != st.client.session && st.client.connected && st.client.up
    ensures forall k :: 0 <= k < |st.client.proxies| && Current(st.client, st.client.proxies[k]) ==>
              Agrees(ControlRuns.Step(st.w, Leave(session)), st.client.session, st.client.proxies[k])
  {
    forall k | 0 <= k < |st.client.proxies| && Current(st.client, st.client.proxies[k])
      ensures Agrees(ControlRuns.Step(st.w, Leave(session)), st.client.session, st.client.proxies[k])
    {
      assert Agrees(st.w, st.client.session, st.client.proxies[k]);
    }
  }

  lemma CreatedIsReset(s: Control, session: nat, shaped: bool, q: Request)
    requires q.DoCreateQp? && Handle(s, session, shaped, q).status == 0
    ensures var reply := Handle(s, session, shaped, q);
            && q.given == Some(reply.id) && reply.id in reply.s.qps && reply.s.qps[reply.id].owner == session
            && reply.s.qps[reply.id].record.state == RESET
  {
  }

  lemma CreateKeeps(st: State, shaped: bool, q: Request, d: Delivery)
    requires Inv(st) && Enabled(st, CallCreate(shaped, q, d))
    ensures Coherent(Step(st, CallCreate(shaped, q, d)))
  {
    hide ControlInv.Inv, AllIssued, QpsEvolve, Agrees, Handle, Coherent;
    var c, a := st.client, Call(st.client.session, shaped, q);
    ControlRuns.StepKeeps(st.w, a);
    var w', reply := ControlRuns.Step(st.w, a), Handle(st.w.s, c.session, shaped, q);
    if d != LostRequest { AllStillAgree(st, c.session, shaped, q, |c.proxies|); }
    if d == Answered && reply.status == 0 {
      CreatedIsReset(st.w.s, c.session, shaped, q);
      ProxyAdded(st, w', q, reply);
    } else {
      CoherentAfter(st, if d == LostRequest then st.w else w', if d == Answered then c else c.(connected := false));
    }
  }

  lemma ProxyAdded(st: State, w': World, q: Request, reply: Reply)
    requires Coherent(st) && st.w.issued <= w'.issued && w'.s == reply.s && reply.id !in st.w.issued && reply.id in w'.issued
    requires reply.id in w'.s.qps && w'.s.qps[reply.id].owner == st.client.session && w'.s.qps[reply.id].record.state == RESET
    requires forall k :: 0 <= k < |st.client.proxies| && Current(st.client, st.client.proxies[k]) ==>
               Agrees(w', st.client.session, st.client.proxies[k])
    ensures Coherent(st.(w := w',
                         client := st.client.(proxies := st.client.proxies + [Proxy(reply.id, st.client.epoch, true, RESET)])))
  {
  }

  lemma CallKeeps(st: State, k: nat, q: Request, d: Delivery)
    requires Inv(st) && Enabled(st, CallOn(k, q, d))
    ensures Coherent(Step(st, CallOn(k, q, d)))
  {
    hide AllIssued, QpsEvolve, Handle, ControlInv.Inv, Agrees;
    var c, p, a := st.client, st.client.proxies[k], Call(st.client.session, true, q);
    if !p.live { return; }
    if p.epoch != c.epoch { ProxySet(st, st.w, k, p.(live := false)); return; }
    if d == LostRequest { return; }
    ControlRuns.StepKeeps(st.w, a);
    var w', reply := ControlRuns.Step(st.w, a), Handle(st.w.s, c.session, true, q);
    AllStillAgree(st, c.session, true, q, k);
    CallKeepsAgreement(st.w, c, p, q);
    if d == Answered { ProxySet(st, w', k, Concluded(p, q, reply.status)); }
  }

  /** One proxy was updated or died; the others still agree. */
  lemma ProxySet(st: State, w': World, k: nat, p: Proxy)
    requires Coherent(st) && st.w.issued <= w'.issued && k < |st.client.proxies|
    requires p.identity == st.client.proxies[k].identity && p.epoch == st.client.proxies[k].epoch
    requires p.live ==> st.client.proxies[k].live
    requires st.client.connected && st.client.up ==>
               && (Current(st.client, p) ==> Agrees(w', st.client.session, p))
               && forall i :: 0 <= i < |st.client.proxies| && i != k && Current(st.client, st.client.proxies[i]) ==>
                    Agrees(w', st.client.session, st.client.proxies[i])
    ensures Coherent(st.(w := w', client := SetProxy(st.client, k, p)))
  {
    hide Agrees;
  }

  lemma QueryKeeps(st: State, k: nat, d: Delivery)
    requires Inv(st) && Enabled(st, CallQuery(k, d))
    ensures Coherent(Step(st, CallQuery(k, d)))
  {
    hide ControlInv.Inv, AllIssued;
    var c, p := st.client, st.client.proxies[k];
    if p.live && p.epoch != c.epoch { ProxySet(st, st.w, k, p.(live := false)); }
    if Current(c, p) && d == Answered && c.connected && c.up { assert Agrees(st.w, c.session, p); }
  }

  lemma EventKeeps(st: State, e: Event)
    requires Inv(st) && Enabled(st, e)
    ensures Inv(Step(st, e))
  {
    hide ControlInv.Inv, AllIssued, Coherent, QpsEvolve, Handle;
    match e
    case Others(a) => OthersKeep(st, a); ControlRuns.StepKeeps(st.w, a);
    case Drop => ControlRuns.StepKeeps(st.w, Leave(st.client.session)); DropKeeps(st);
    case OthersConnect => SessionsAside(st);
    case Reconnect => ReconnectKeeps(st);
    case CallOther(shaped, q, d) =>
      CallOtherKeeps(st, shaped, q, d);
      ControlRuns.StepKeeps(st.w, Call(st.client.session, shaped, q));
    case CallCreate(shaped, q, d) =>
      CreateKeeps(st, shaped, q, d);
      ControlRuns.StepKeeps(st.w, Call(st.client.session, shaped, q));
    case CallOn(k, q, d) =>
      CallKeeps(st, k, q, d);
      ControlRuns.StepKeeps(st.w, Call(st.client.session, true, q));
    case CallQuery(k, d) => QueryKeeps(st, k, d);
  }

  lemma SessionsAside(st: State)
    requires Coherent(st)
    ensures Coherent(st.(sessions := st.sessions + 1))
  {
  }

  lemma DropKeeps(st: State)
    requires Coherent(st) && Enabled(st, Drop)
    ensures Coherent(Step(st, Drop))
  {
  }

  lemma ReconnectKeeps(st: State)
    requires Coherent(st) && Enabled(st, Reconnect)
    ensures Coherent(Step(st, Reconnect))
  {
  }

  lemma CallOtherKeeps(st: State, shaped: bool, q: Request, d: Delivery)
    requires Inv(st) && Enabled(st, CallOther(shaped, q, d))
    ensures Coherent(Step(st, CallOther(shaped, q, d)))
  {
    hide ControlInv.Inv, AllIssued, QpsEvolve, Agrees, Handle, Coherent;
    var c, a := st.client, Call(st.client.session, shaped, q);
    ControlRuns.StepKeeps(st.w, a);
    if d != LostRequest { AllStillAgree(st, c.session, shaped, q, |c.proxies|); }
    CoherentAfter(st, if d == LostRequest then st.w else ControlRuns.Step(st.w, a),
                  if d == Answered then c else c.(connected := false));
  }

  ghost predicate IsRun(sts: seq<State>, events: seq<Event>) {
    && |sts| == |events| + 1 && sts[0] == State(World(InitialControl, {}), Client(false, false, 0, 0, []), 0)
    && (forall t :: 0 <= t < |events| ==> Enabled(sts[t], events[t]) && sts[t + 1] == Step(sts[t], events[t]))
  }

  lemma {:induction false} RunKeeps(sts: seq<State>, events: seq<Event>, t: nat)
    requires IsRun(sts, events) && t < |sts|
    ensures Inv(sts[t])
  {
    if t == 0 {
      InitialKeeps();
    } else {
      hide Inv, Step, Enabled;
      RunKeeps(sts, events, t - 1);
      assert sts[t - 1 + 1] == Step(sts[t - 1], events[t - 1]);
      EventKeeps(sts[t - 1], events[t - 1]);
    }
  }

  /**
    In every state of every run, while the connection and its session hold, a
    live proxy of the current epoch caches the daemon's state of its queue pair.
   */
  lemma CachedStateIsDaemonState(sts: seq<State>, events: seq<Event>, t: nat, k: nat)
    requires IsRun(sts, events) && t < |sts| && k < |sts[t].client.proxies|
    requires sts[t].client.connected && sts[t].client.up && Current(sts[t].client, sts[t].client.proxies[k])
    ensures Agrees(sts[t].w, sts[t].client.session, sts[t].client.proxies[k])
  {
    RunKeeps(sts, events, t);
    hide ControlInv.Inv, IsRun;
  }

  // ----- sessions

  ghost predicate OwnersOf<R>(m: map<nat, Registry.Owned<R>>, n: nat) { forall id :: id in m ==> m[id].owner <= n }

  /** Every object belongs to one of the sessions opened so far. */
  ghost predicate OwnersKnown(s: Control, n: nat) {
    OwnersOf(s.contexts, n) && OwnersOf(s.pds, n) && OwnersOf(s.mrs, n) && OwnersOf(s.cqs, n) && OwnersOf(s.qps, n)
  }

  lemma ParentsHandled(s: Control, session: nat, shaped: bool, q: Request, n: nat)
    requires OwnersKnown(s, n) && session <= n
    requires q.DoCreateContext? || q.DoDestroyContext? || q.DoCreatePd? || q.DoDestroyPd? || q.DoQuery?
    ensures OwnersKnown(Handle(s, session, shaped, q).s, n)
  {
    hide RegisterMr, DeregisterMr, CreateCq, DestroyCq, CreateQp, DestroyQp, ModifyQp, ConnectQp;
  }

  lemma RegionsHandled(s: Control, session: nat, shaped: bool, q: Request, n: nat)
    requires OwnersKnown(s, n) && session <= n && (q.DoRegisterMr? || q.DoDeregisterMr?)
    ensures OwnersKnown(Handle(s, session, shaped, q).s, n)
  {
    hide CreateContext, DestroyContext, CreatePd, DestroyPd, CreateCq, DestroyCq, CreateQp, DestroyQp, ModifyQp, ConnectQp,
      ValidMemory, ValidAccess;
  }

  lemma CqsHandled(s: Control, session: nat, shaped: bool, q: Request, n: nat)
    requires OwnersKnown(s, n) && session <= n && (q.DoCreateCq? || q.DoDestroyCq?)
    ensures OwnersKnown(Handle(s, session, shaped, q).s, n)
  {
    hide CreateContext, DestroyContext, CreatePd, DestroyPd, RegisterMr, DeregisterMr, CreateQp, DestroyQp, ModifyQp, ConnectQp;
  }

  lemma QueuePairsHandled(s: Control, session: nat, shaped: bool, q: Request, n: nat)
    requires OwnersKnown(s, n) && session <= n && (q.DoCreateQp? || q.DoDestroyQp?)
    ensures OwnersKnown(Handle(s, session, shaped, q).s, n)
  {
    hide CreateContext, DestroyContext, CreatePd, DestroyPd, RegisterMr, DeregisterMr, CreateCq, DestroyCq, ModifyQp, ConnectQp,
      ValidCreate, NextQpNum;
  }

  lemma MovesHandled(s: Control, session: nat, shaped: bool, q: Request, n: nat)
    requires OwnersKnown(s, n) && session <= n && (q.DoModifyQp? || q.DoConnectQp?)
    ensures OwnersKnown(Handle(s, session, shaped, q).s, n)
  {
    hide CreateContext, DestroyContext, CreatePd, DestroyPd, RegisterMr, DeregisterMr, CreateCq, DestroyCq, CreateQp, DestroyQp,
      ValidRetry, ModifiedQp;
  }

  lemma OwnersStep(w: World, a: Action, n: nat)
    requires OwnersKnown(w.s, n) && a.session <= n
    ensures OwnersKnown(ControlRuns.Step(w, a).s, n)
  {
    hide Handle, OwnersKnown;
    match a
    case Call(session, shaped, q) =>
      if q.DoCreateQp? || q.DoDestroyQp? { QueuePairsHandled(w.s, session, shaped, q, n); }
      else if q.DoModifyQp? || q.DoConnectQp? { MovesHandled(w.s, session, shaped, q, n); }
      else if q.DoRegisterMr? || q.DoDeregisterMr? { RegionsHandled(w.s, session, shaped, q, n); }
      else if q.DoCreateCq? || q.DoDestroyCq? { CqsHandled(w.s, session, shaped, q, n); }
      else { ParentsHandled(w.s, session, shaped, q, n); }
    case Leave(session) => OwnersLeave(w.s, session, n);
  }

  lemma OwnersLeave(s: Control, session: nat, n: nat)
    requires OwnersKnown(s, n)
    ensures OwnersKnown(Disconnect(s, session), n)
  {
  }

  lemma OwnersEvent(st: State, e: Event)
    requires OwnersKnown(st.w.s, st.sessions) && st.client.session <= st.sessions && Enabled(st, e)
    ensures OwnersKnown(Step(st, e).w.s, Step(st, e).sessions) && Step(st, e).client.session <= Step(st, e).sessions
  {
    hide Handle, OwnersKnown, Concluded;
    match e
    case Others(a) => OwnersStep(st.w, a, st.sessions);
    case Drop => OwnersStep(st.w, Leave(st.client.session), st.sessions);
    case CallOther(shaped, q, d) => OwnersStep(st.w, Call(st.client.session, shaped, q), st.sessions);
    case CallCreate(shaped, q, d) => OwnersStep(st.w, Call(st.client.session, shaped, q), st.sessions);
    case CallOn(k, q, d) => OwnersStep(st.w, Call(st.client.session, true, q), st.sessions);
    case CallQuery(_, _) =>
    case _ => OwnersMore(st.w.s, st.sessions);
  }

  lemma OwnersMore(s: Control, n: nat)
    requires OwnersKnown(s, n)
    ensures OwnersKnown(s, n + 1)
  {
  }

  /** The session a client gets when it connects owns nothing: all owners are among the sessions opened before. */
  lemma {:induction false} NewSessionOwnsNothing(sts: seq<State>, events: seq<Event>, t: nat)
    requires IsRun(sts, events) && t < |sts|
    ensures OwnersKnown(sts[t].w.s, sts[t].sessions) && sts[t].client.session <= sts[t].sessions
  {
    if t != 0 {
      hide OwnersKnown, Step, Enabled;
      NewSessionOwnsNothing(sts, events, t - 1);
      assert sts[t - 1 + 1] == Step(sts[t - 1], events[t - 1]);
      OwnersEvent(sts[t - 1], events[t - 1]);
    }
  }

  // ----- posting

  /** The state check of post_send. */
  predicate MayPostSend(p: Proxy) { p.live && p.cachedState == RTS }

  /** The state check of post_receive. */
  predicate MayPostReceive(p: Proxy) { p.live && (p.cachedState == INIT || p.cachedState == RTR || p.cachedState == RTS) }

  /** While the connection holds, sends are posted only to connected queue pairs, receives only to initialised ones. */
  lemma PostingNeedsReadyQueuePair(sts: seq<State>, events: seq<Event>, t: nat, k: nat)
    requires IsRun(sts, events) && t < |sts| && k < |sts[t].client.proxies|
    requires sts[t].client.connected && sts[t].client.up && Current(sts[t].client, sts[t].client.proxies[k])
    ensures var p, qps := sts[t].client.proxies[k], sts[t].w.s.qps;
            && p.identity in qps && qps[p.identity].owner == sts[t].client.session
            && (MayPostSend(p) <==> qps[p.identity].record.state == RTS)
            && (MayPostReceive(p) <==> qps[p.identity].record.state == INIT || qps[p.identity].record.state == RTS)
            && (MayPostSend(p) ==> qps[p.identity].record.peerQpNum != 0)
  {
    RunKeeps(sts, events, t);
    CachedStateIsDaemonState(sts, events, t, k);
    hide IsRun, ControlInv.Inv, QpStateOk, QpIndexed;
    QpsWellFormed(sts[t].w.s);
    StateOkOf(sts[t].w.s.qps, sts[t].client.proxies[k].identity);
  }

  lemma StateOkOf(qps: map<nat, Registry.Owned<QpRecord>>, id: nat)
    requires QpStates(qps) && id in qps
    ensures qps[id].record.state != RTR && (qps[id].record.state == RTS ==> qps[id].record.peerQpNum != 0)
  {
    assert QpStateOk(qps[id].record);
  }

  /** The requests of a client that sets one queue pair up, connected to itself. */
  const SetUp: seq<Event> := [
    Reconnect,
    CallOther(true, DoCreateContext(1, true, Some(1)), Answered),
    CallOther(true, DoCreatePd(1, Some(2)), Answered),
    CallOther(true, DoCreateCq(1, 16, 0, Some(3)), Answered),
    CallCreate(true, DoCreateQp(2, Decoded(QpCreate(3, 3, 8, 8, 1, 1, true, 0)), 0, Some(4)), Answered),
    CallOn(0, DoModifyQp(4, Decoded(QpModify(Mask(true, false, true, false), INIT, 0, ACCESS_REMOTE_WRITE))), Answered),
    CallOn(0, DoConnectQp(4, Decoded(QpConnect(1, true, Retry(1, 7, 7, 1)))), Answered)]

  /** The states on the way: after `children` requests below the context, and with the queue pair. */
  function BeforeQp(children: nat): State {
    var context := map[1 := Registry.Owned(1, ContextRecord(1, children))];
    var pds := if children == 0 then map[] else map[2 := Registry.Owned(1, PdRecord(1, {}, map[], map[], 0))];
    var cqs := if children <= 1 then map[] else map[3 := Registry.Owned(1, CqRecord(1, 16, 0))];
    State(World(Control(context, pds, map[], cqs, map[], map[], 1, 1, 0),
                if children == 0 then {1} else if children == 1 then {1, 2} else {1, 2, 3}),
          Client(true, true, 1, 1, []), 1)
  }

  function WithQp(state: nat, access: nat, peerQpNum: nat, peer: nat, retry: Retry): State {
    var qp := QpRecord(1, 2, 3, 3, 1, state, access, peerQpNum, peer, retry);
    State(World(Control(map[1 := Registry.Owned(1, ContextRecord(1, 2))],
                        map[2 := Registry.Owned(1, PdRecord(1, {}, map[], map[], 1))], map[],
                        map[3 := Registry.Owned(1, CqRecord(1, 16, 1))], map[4 := Registry.Owned(1, qp)], map[1 := 4], 1, 2, 0),
                {1, 2, 3, 4}),
          Client(true, true, 1, 1, [Proxy(4, 1, true, state)]), 1)
  }

  lemma SetUpContext()
    ensures var s0 := State(World(InitialControl, {}), Client(false, false, 0, 0, []), 0);
            Enabled(s0, SetUp[0]) && Enabled(Step(s0, SetUp[0]), SetUp[1])
            && Step(Step(s0, SetUp[0]), SetUp[1]) == BeforeQp(0)
  {
  }

  lemma SetUpPd()
    ensures Enabled(BeforeQp(0), SetUp[2]) && Step(BeforeQp(0), SetUp[2]) == BeforeQp(1)
  {
  }

  lemma SetUpCq()
    ensures Enabled(BeforeQp(1), SetUp[3]) && Step(BeforeQp(1), SetUp[3]) == BeforeQp(2)
  {
  }

  lemma SetUpCreate()
    ensures Enabled(BeforeQp(2), SetUp[4]) && Step(BeforeQp(2), SetUp[4]) == WithQp(RESET, 0, 0, 0, Retry(0, 0, 0, 0))
  {
  }

  lemma SetUpModify()
    ensures var s := WithQp(RESET, 0, 0, 0, Retry(0, 0, 0, 0));
            Enabled(s, SetUp[5]) && Step(s, SetUp[5]) == WithQp(INIT, ACCESS_REMOTE_WRITE, 0, 0, Retry(0, 0, 0, 0))
  {
  }

  lemma SetUpConnect()
    ensures var s := WithQp(INIT, ACCESS_REMOTE_WRITE, 0, 0, Retry(0, 0, 0, 0));
            Enabled(s, SetUp[6]) && Step(s, SetUp[6]) == WithQp(RTS, ACCESS_REMOTE_WRITE, 1, 4, Retry(1, 7, 7, 1))
  {
  }

  /** The client of the theorems above reaches a live queue pair in INIT, then in RTS, on its own session. */
  lemma SetUpReachesReadyQueuePair() returns (sts: seq<State>)
    ensures IsRun(sts, SetUp)
    ensures forall t :: 6 <= t <= 7 ==>
              && sts[t].client.connected && sts[t].client.up && |sts[t].client.proxies| == 1
              && Current(sts[t].client, sts[t].client.proxies[0])
    ensures sts[6].client.proxies[0].cachedState == INIT && MayPostReceive(sts[6].client.proxies[0])
    ensures sts[7].client.proxies[0].cachedState == RTS && MayPostSend(sts[7].client.proxies[0])
  {
    hide Step, Enabled, InitialControl;
    SetUpContext();
    SetUpPd();
    SetUpCq();
    SetUpCreate();
    SetUpModify();
    SetUpConnect();
    var s0 := State(World(InitialControl, {}), Client(false, false, 0, 0, []), 0);
    sts := [s0, Step(s0, SetUp[0]), BeforeQp(0), BeforeQp(1), BeforeQp(2), WithQp(RESET, 0, 0, 0, Retry(0, 0, 0, 0)),
            WithQp(INIT, ACCESS_REMOTE_WRITE, 0, 0, Retry(0, 0, 0, 0)),
            WithQp(RTS, ACCESS_REMOTE_WRITE, 1, 4, Retry(1, 7, 7, 1))];
  }
}
