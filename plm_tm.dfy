/** The TM (PBS/Torque) daemon launcher, src/mca/plm/tm/plm_tm_module.c.

    The TM library (tm_init, tm_spawn, tm_poll, tm_finalize) is an oracle:
    the reply to the k-th call of each kind is a fixed function of k, and
    every call is logged. The state machine's event dispatch is replaced by
    a log of activated states; the request object handed to each handler
    (prte_state_caddy_t) is a class that counts its references. The file's
    statics `launched` and `connected` are the fields of TmModule. */
module PlmTm {
  import opened Util
  import opened PlmTmEnv

  const TM_SUCCESS: int := 0

  /** plm_tm_connect tries tm_init this many times. */
  const MaxConnectAttempts: nat := 10

  // ---------------------------------------------------------------------
  // Jobs, maps, nodes
  // ---------------------------------------------------------------------

  datatype JobState =
    | Init | Map | LaunchDaemons | DaemonsLaunched | DaemonsReported | FailedToStart
    | OtherState(code: nat)

  datatype JobFlag = Restart | DebuggerDaemon

  /** A node of the daemons' map: its daemon's rank, the DAEMON_LAUNCHED
      flag, and the PRTE_NODE_LAUNCH_ID attribute when it is present. */
  datatype Node = Node(name: string, rank: nat, daemonLaunched: bool, launchId: Option<int>)

  /** The map of the daemons job: a pointer array of nodes (slots may be
      empty) and the number of daemons still to be started. */
  datatype JobMap = JobMap(nodes: seq<Option<Node>>, numNewDaemons: nat)

  /** An app context; only its PRTE_APP_PREFIX_DIR attribute matters here. */
  datatype App = App(prefixDir: Option<string>)

  /** A job; this core only assigns its state. */
  class Job {
    var state: JobState
    const flags: set<JobFlag>
    const doNotLaunch: bool
    const jobMap: Option<JobMap>
    const apps: seq<App>

    constructor (state: JobState, flags: set<JobFlag>, doNotLaunch: bool, jobMap: Option<JobMap>, apps: seq<App>)
      ensures this.state == state && this.flags == flags && this.doNotLaunch == doNotLaunch
      ensures this.jobMap == jobMap && this.apps == apps
    {
      this.state := state;
      this.flags := flags;
      this.doNotLaunch := doNotLaunch;
      this.jobMap := jobMap;
      this.apps := apps;
    }
  }

  // ---------------------------------------------------------------------
  // The job state machine, as far as this core sees it
  // ---------------------------------------------------------------------

  /** One PRTE_ACTIVATE_JOB_STATE(job, state). */
  datatype Activation = Activation(job: Job, state: JobState)

  datatype Handler = LaunchDaemonsHandler | PollSpawnsHandler

  class StateMachine {
    var activations: seq<Activation>
    var handlers: map<JobState, Handler>

    constructor ()
      ensures activations == [] && handlers == map[]
    {
      activations := [];
      handlers := map[];
    }

    method Activate(job: Job, s: JobState)
      modifies this`activations
      ensures activations == old(activations) + [Activation(job, s)]
    {
      activations := activations + [Activation(job, s)];
    }

    /** prte_state.add_job_state / set_job_state_callback: the handler is
        installed when the dispatcher reports success (`outcome`). */
    method Register(s: JobState, h: Handler, outcome: Status) returns (rc: Status)
      modifies this`handlers
      ensures rc == outcome
      ensures handlers == if outcome == Success then old(handlers)[s := h] else old(handlers)
    {
      rc := outcome;
      if outcome == Success {
        handlers := handlers[s := h];
      }
    }
  }

  /** The reference-counted request object a handler receives. Reading its
      job after the last reference is gone is counted in readsAfterFree. */
  class Caddy {
    const jdata: Job
    var refCount: nat
    var readsAfterFree: nat

    constructor (jdata: Job)
      ensures this.jdata == jdata && refCount == 1 && readsAfterFree == 0
    {
      this.jdata := jdata;
      refCount := 1;
      readsAfterFree := 0;
    }

    /** PRTE_RELEASE(state). */
    method Release()
      requires refCount > 0
      modifies this`refCount
      ensures refCount == old(refCount) - 1
    {
      refCount := refCount - 1;
    }

    /** `state->jdata`. */
    method Job() returns (j: Job)
      modifies this`readsAfterFree
      ensures j == jdata
      ensures readsAfterFree == old(readsAfterFree) + (if refCount == 0 then 1 else 0)
    {
      j := jdata;
      if refCount == 0 {
        readsAfterFree := readsAfterFree + 1;
      }
    }
  }

  // ---------------------------------------------------------------------
  // The TM library as an oracle
  // ---------------------------------------------------------------------

  datatype SpawnRequest = SpawnRequest(argv: seq<string>, env: seq<string>, launchId: int)

  datatype PollReply = PollReply(rc: int, localErr: int)

  class TmLibrary {
    const initReply: nat -> int
    const spawnReply: nat -> int
    const pollReply: nat -> PollReply
    var initCalls: nat
    var spawns: seq<SpawnRequest>
    var pollCalls: nat
    var finalizeCalls: nat

    constructor (initReply: nat -> int, spawnReply: nat -> int, pollReply: nat -> PollReply)
      ensures this.initReply == initReply && this.spawnReply == spawnReply && this.pollReply == pollReply
      ensures initCalls == 0 && spawns == [] && pollCalls == 0 && finalizeCalls == 0
    {
      this.initReply := initReply;
      this.spawnReply := spawnReply;
      this.pollReply := pollReply;
      initCalls, spawns, pollCalls, finalizeCalls := 0, [], 0, 0;
    }

    method TmInit() returns (rc: int)
      modifies this`initCalls
      ensures rc == initReply(old(initCalls)) && initCalls == old(initCalls) + 1
    {
      rc := initReply(initCalls);
      initCalls := initCalls + 1;
    }

    /** tm_spawn: logs the request; the task id and event are the call's number. */
    method TmSpawn(argv: seq<string>, env: seq<string>, launchId: int) returns (rc: int, taskId: nat, event: nat)
      modifies this`spawns
      ensures rc == spawnReply(|old(spawns)|)
      ensures spawns == old(spawns) + [SpawnRequest(argv, env, launchId)]
      ensures taskId == event == |old(spawns)|
    {
      rc := spawnReply(|spawns|);
      taskId, event := |spawns|, |spawns|;
      spawns := spawns + [SpawnRequest(argv, env, launchId)];
    }

    method TmPoll() returns (rc: int, localErr: int)
      modifies this`pollCalls
      ensures PollReply(rc, localErr) == pollReply(old(pollCalls)) && pollCalls == old(pollCalls) + 1
    {
      rc, localErr := pollReply(pollCalls).rc, pollReply(pollCalls).localErr;
      pollCalls := pollCalls + 1;
    }

    method TmFinalize()
      modifies this`finalizeCalls
      ensures finalizeCalls == old(finalizeCalls) + 1
    {
      finalizeCalls := finalizeCalls + 1;
    }
  }

  // ---------------------------------------------------------------------
  // Specification of plm_tm_connect
  // ---------------------------------------------------------------------

  /** The number of tm_init calls plm_tm_connect makes when the first of
      them is call number k0 and `count` attempts have already failed. */
  function ConnectAttemptsFrom(reply: nat -> int, k0: nat, count: nat): (r: nat)
    requires count < MaxConnectAttempts
    ensures count < r <= MaxConnectAttempts
    ensures forall k :: k0 + count <= k < k0 + r - 1 ==> reply(k) != TM_SUCCESS
    ensures reply(k0 + r - 1) == TM_SUCCESS || r == MaxConnectAttempts
    decreases MaxConnectAttempts - count
  {
    if reply(k0 + count) == TM_SUCCESS || count == MaxConnectAttempts - 1 then count + 1
    else ConnectAttemptsFrom(reply, k0, count + 1)
  }

  function ConnectAttempts(reply: nat -> int, k0: nat): (r: nat)
    ensures 1 <= r <= MaxConnectAttempts
  {
    ConnectAttemptsFrom(reply, k0, 0)
  }

  /** Connecting succeeds iff the last attempt made was answered TM_SUCCESS. */
  predicate ConnectSucceeds(reply: nat -> int, k0: nat) {
    reply(k0 + ConnectAttempts(reply, k0) - 1) == TM_SUCCESS
  }

  /** Connecting succeeds exactly when one of the next ten tm_init calls
      succeeds, and then after the first such call. */
  lemma ConnectSucceedsIff(reply: nat -> int, k0: nat)
    ensures ConnectSucceeds(reply, k0) <==> exists k :: k0 <= k < k0 + MaxConnectAttempts && reply(k) == TM_SUCCESS
  {
    var r := ConnectAttempts(reply, k0);
    if !ConnectSucceeds(reply, k0) {
      assert r == MaxConnectAttempts;
      forall k | k0 <= k < k0 + MaxConnectAttempts ensures reply(k) != TM_SUCCESS {
        if k < k0 + r - 1 { } else { assert k == k0 + r - 1; }
      }
    }
  }

  /** After `count` failed attempts, either the next one succeeds and is
      the last, or all ten have failed. */
  lemma ConnectAttemptsAfter(reply: nat -> int, k0: nat, count: nat)
    requires count <= MaxConnectAttempts
    requires forall k :: k0 <= k < k0 + count ==> reply(k) != TM_SUCCESS
    requires count < MaxConnectAttempts ==> reply(k0 + count) == TM_SUCCESS
    ensures ConnectAttempts(reply, k0) == if count < MaxConnectAttempts then count + 1 else MaxConnectAttempts
    ensures ConnectSucceeds(reply, k0) <==> count < MaxConnectAttempts
  {
    var r := ConnectAttempts(reply, k0);
    if r - 1 < count {
      assert reply(k0 + r - 1) != TM_SUCCESS;
    }
  }

  /** Three busy replies and then a success: four attempts, and connected. */
  lemma ConnectAfterThreeFailures()
    ensures ConnectAttempts(k => if k < 3 then 1 else TM_SUCCESS, 0) == 4
    ensures ConnectSucceeds(k => if k < 3 then 1 else TM_SUCCESS, 0)
  {
    var reply: nat -> int := k => if k < 3 then 1 else TM_SUCCESS;
    assert ConnectAttemptsFrom(reply, 0, 3) == 4;
    assert ConnectAttemptsFrom(reply, 0, 2) == 4;
    assert ConnectAttemptsFrom(reply, 0, 1) == 4;
  }

  /** Every tm_init busy: all ten attempts are spent and connecting fails. */
  lemma ConnectAllBusy(reply: nat -> int, k0: nat)
    requires forall k :: k0 <= k < k0 + MaxConnectAttempts ==> reply(k) != TM_SUCCESS
    ensures ConnectAttempts(reply, k0) == MaxConnectAttempts
    ensures !ConnectSucceeds(reply, k0)
  {
    var r := ConnectAttempts(reply, k0);
    assert reply(k0 + r - 1) != TM_SUCCESS;
  }

  // ---------------------------------------------------------------------
  // Specification of the spawn loop of launch_daemons
  // ---------------------------------------------------------------------

  /** A node slot the loop spawns for: present and not DAEMON_LAUNCHED. */
  predicate Pending(slot: Option<Node>) {
    slot.Some? && !slot.value.daemonLaunched
  }

  /** The slots the loop issues spawns for, in index order. */
  function Eligible(nodes: seq<Option<Node>>): (r: seq<Option<Node>>)
    ensures |r| <= |nodes|
    ensures forall k :: 0 <= k < |r| ==> Pending(r[k])
  {
    Filter(nodes, Pending)
  }

  /** A slot is spawned for iff it is in the map and pending. */
  lemma EligibleIff(nodes: seq<Option<Node>>, x: Option<Node>)
    ensures x in Eligible(nodes) <==> x in nodes && Pending(x)
  {
    FilterSound(nodes, Pending);
    if x in nodes && Pending(x) {
      FilterComplete(nodes, Pending, x);
    }
  }

  /** A map whose every slot is pending (a fresh map, none of its daemons
      launched yet) gets a spawn for every slot, in stored order. */
  lemma EligibleAllPending(nodes: seq<Option<Node>>)
    requires forall k :: 0 <= k < |nodes| ==> Pending(nodes[k])
    ensures Eligible(nodes) == nodes
  {
    FilterAll(nodes, Pending);
  }

  /** A map with no pending slot gets no spawn. */
  lemma EligibleNonePending(nodes: seq<Option<Node>>)
    requires forall k :: 0 <= k < |nodes| ==> !Pending(nodes[k])
    ensures Eligible(nodes) == []
  {
    FilterNone(nodes, Pending);
  }

  /** A pending node whose spawn goes through: it has a launch id and
      tm_spawn answers TM_SUCCESS. */
  predicate SpawnOk(slot: Option<Node>, rc: int) {
    slot.Some? && slot.value.launchId.Some? && rc == TM_SUCCESS
  }

  /** The position in `pending` of the first node whose spawn does not go
      through, or |pending|; tm_spawn call k0 + j serves pending[j]. */
  function FailIndexFrom(pending: seq<Option<Node>>, reply: nat -> int, k0: nat, j: nat): (r: nat)
    requires j <= |pending|
    ensures j <= r <= |pending|
    ensures forall m :: j <= m < r ==> SpawnOk(pending[m], reply(k0 + m))
    ensures r < |pending| ==> !SpawnOk(pending[r], reply(k0 + r))
    decreases |pending| - j
  {
    if j == |pending| || !SpawnOk(pending[j], reply(k0 + j)) then j
    else FailIndexFrom(pending, reply, k0, j + 1)
  }

  function FailIndex(pending: seq<Option<Node>>, reply: nat -> int, k0: nat): (r: nat)
    ensures r <= |pending|
  {
    FailIndexFrom(pending, reply, k0, 0)
  }

  /** The number of tm_spawn calls the loop makes: one per node up to the
      first failure, plus the rejected one when the failing node had a
      launch id (a missing launch id fails before tm_spawn). */
  function Attempts(pending: seq<Option<Node>>, reply: nat -> int, k0: nat): (r: nat)
    ensures r <= |pending|
  {
    var f := FailIndex(pending, reply, k0);
    if f < |pending| && pending[f].Some? && pending[f].value.launchId.Some? then f + 1 else f
  }

  /** The request issued for one node: the shared argv with the vpid slot
      replaced by the node's rank, the shared environment, the node's
      launch id (0 when absent, as `launchid` is initialised). */
  function RequestFor(slot: Option<Node>, argv: seq<string>, vpidIndex: nat, env: seq<string>): SpawnRequest
    requires slot.Some? && vpidIndex < |argv|
  {
    var n := slot.value;
    SpawnRequest(argv[vpidIndex := RankString(n.rank)], env, if n.launchId.Some? then n.launchId.value else 0)
  }

  /** The requests issued for `slots`, in order. */
  function Requests(slots: seq<Option<Node>>, argv: seq<string>, vpidIndex: nat, env: seq<string>): (r: seq<SpawnRequest>)
    requires vpidIndex < |argv| && forall k :: 0 <= k < |slots| ==> slots[k].Some?
    ensures |r| == |slots|
  {
    if slots == [] then []
    else Requests(slots[..|slots| - 1], argv, vpidIndex, env) + [RequestFor(slots[|slots| - 1], argv, vpidIndex, env)]
  }

  /** Request j is the one for slot j. */
  lemma {:induction false} RequestsAt(slots: seq<Option<Node>>, argv: seq<string>, vpidIndex: nat, env: seq<string>)
    requires vpidIndex < |argv| && forall k :: 0 <= k < |slots| ==> slots[k].Some?
    ensures forall j :: 0 <= j < |slots| ==>
              Requests(slots, argv, vpidIndex, env)[j] == RequestFor(slots[j], argv, vpidIndex, env)
  {
    if slots != [] {
      var n := |slots| - 1;
      RequestsAt(slots[..n], argv, vpidIndex, env);
      forall j | 0 <= j < n
        ensures Requests(slots, argv, vpidIndex, env)[j] == RequestFor(slots[j], argv, vpidIndex, env)
      {
        assert slots[..n][j] == slots[j];
      }
    }
  }

  /** Issuing the request for slot n after those for the first n slots
      gives the requests for the first n + 1. */
  lemma AppendRequest(log0: seq<SpawnRequest>, slots: seq<Option<Node>>, n: nat, argv: seq<string>, vpidIndex: nat,
                      env: seq<string>)
    requires n < |slots| && vpidIndex < |argv| && forall k :: 0 <= k < |slots| ==> slots[k].Some?
    ensures (log0 + Requests(slots[..n], argv, vpidIndex, env)) + [RequestFor(slots[n], argv, vpidIndex, env)]
         == log0 + Requests(slots[..n + 1], argv, vpidIndex, env)
  {
    assert slots[..n + 1][..n] == slots[..n];
    var prev := Requests(slots[..n], argv, vpidIndex, env);
    var r := RequestFor(slots[n], argv, vpidIndex, env);
    assert Requests(slots[..n + 1], argv, vpidIndex, env) == prev + [r];
    assert (log0 + prev) + [r] == log0 + (prev + [r]);
  }

  /** `log` is `log0` followed by one request per spawn attempt of the
      round, for the pending nodes in order. */
  ghost predicate SpawnLog(log0: seq<SpawnRequest>, log: seq<SpawnRequest>, nodes: seq<Option<Node>>,
                           reply: nat -> int, argv: seq<string>, vpidIndex: nat, env: seq<string>)
    requires vpidIndex < |argv|
  {
    var pending := Eligible(nodes);
    var a := Attempts(pending, reply, |log0|);
    log == log0 + Requests(pending[..a], argv, vpidIndex, env)
  }

  /** Read entry by entry: the log keeps the earlier requests and holds
      the request for pending node j at position |log0| + j. */
  lemma SpawnLogEntries(log0: seq<SpawnRequest>, log: seq<SpawnRequest>, nodes: seq<Option<Node>>,
                        reply: nat -> int, argv: seq<string>, vpidIndex: nat, env: seq<string>)
    requires vpidIndex < |argv| && SpawnLog(log0, log, nodes, reply, argv, vpidIndex, env)
    ensures var a := Attempts(Eligible(nodes), reply, |log0|);
            && |log| == |log0| + a && log[..|log0|] == log0
            && forall j :: 0 <= j < a ==> log[|log0| + j] == RequestFor(Eligible(nodes)[j], argv, vpidIndex, env)
  {
    var pending := Eligible(nodes);
    var a := Attempts(pending, reply, |log0|);
    RequestsAt(pending[..a], argv, vpidIndex, env);
    assert log[..|log0|] == log0;
  }

  /** One step of the node loop: a pending node is the next entry of the
      pending sequence, any other node leaves it where it was. */
  lemma EligibleStep(nodes: seq<Option<Node>>, i: nat, e: nat)
    requires i < |nodes| && e <= |Eligible(nodes)|
    requires Eligible(nodes[..i]) == Eligible(nodes)[..e]
    ensures Pending(nodes[i]) ==>
              e < |Eligible(nodes)| && Eligible(nodes)[e] == nodes[i] && Eligible(nodes[..i + 1]) == Eligible(nodes)[..e + 1]
    ensures !Pending(nodes[i]) ==> Eligible(nodes[..i + 1]) == Eligible(nodes)[..e]
  {
    FilterNext(nodes, Pending, i, e);
  }

  /** Past e successful spawns, the failure index is e exactly when the
      e-th pending node's spawn does not go through. */
  lemma FailIndexStep(pending: seq<Option<Node>>, reply: nat -> int, k0: nat, e: nat)
    requires e < |pending| && e <= FailIndex(pending, reply, k0)
    ensures FailIndex(pending, reply, k0) == e <==> !SpawnOk(pending[e], reply(k0 + e))
  {
    var f := FailIndex(pending, reply, k0);
    if e < f {
      assert SpawnOk(pending[e], reply(k0 + e));
    }
  }

  /** Where the loop stands after e successful spawns: a failure at e
      ends the round after e or e + 1 attempts; otherwise spawn e is part
      of the round. */
  lemma AttemptsAt(pending: seq<Option<Node>>, reply: nat -> int, k0: nat, e: nat)
    requires e < |pending| && e <= FailIndex(pending, reply, k0) && pending[e].Some?
    ensures pending[e].value.launchId.None? ==> FailIndex(pending, reply, k0) == e && Attempts(pending, reply, k0) == e
    ensures pending[e].value.launchId.Some? ==> e < Attempts(pending, reply, k0)
    ensures pending[e].value.launchId.Some? && reply(k0 + e) != TM_SUCCESS ==>
              FailIndex(pending, reply, k0) == e && Attempts(pending, reply, k0) == e + 1
    ensures pending[e].value.launchId.Some? && reply(k0 + e) == TM_SUCCESS ==> e < FailIndex(pending, reply, k0)
  {
    FailIndexStep(pending, reply, k0, e);
  }

  /** An array of task ids or events after spawn calls k0 .. k0 + n - 1
      have written their numbers at slots from .. from + n - 1; every other
      slot keeps its value from `s`. */
  function Stamped(s: seq<nat>, from: nat, k0: nat, n: nat): (r: seq<nat>)
    requires from + n <= |s|
  {
    seq(|s|, k requires 0 <= k < |s| => if from <= k < from + n then k0 + (k - from) else s[k])
  }

  /** Nothing stamped leaves the array as it was. */
  lemma StampedNone(s: seq<nat>, from: nat, k0: nat)
    requires from <= |s|
    ensures Stamped(s, from, k0, 0) == s
  {
  }

  /** Writing the next call's number at the next slot stamps one more. */
  lemma StampedNext(s: seq<nat>, from: nat, k0: nat, n: nat)
    requires from + n < |s|
    ensures Stamped(s, from, k0, n)[from + n := k0 + n] == Stamped(s, from, k0, n + 1)
  {
  }

  /** Requests of two nodes of a round differ only in the vpid slot, where
      each carries its own node's rank; different ranks give different tokens. */
  lemma RequestsDifferOnlyInVpid(a: Option<Node>, b: Option<Node>, argv: seq<string>, vpidIndex: nat, env: seq<string>, k: nat)
    requires a.Some? && b.Some? && vpidIndex < |argv| && k < |argv|
    ensures |RequestFor(a, argv, vpidIndex, env).argv| == |argv|
    ensures k != vpidIndex ==> RequestFor(a, argv, vpidIndex, env).argv[k] == RequestFor(b, argv, vpidIndex, env).argv[k] == argv[k]
    ensures RequestFor(a, argv, vpidIndex, env).argv[vpidIndex] == RankString(a.value.rank)
    ensures a.value.rank != b.value.rank ==>
              RequestFor(a, argv, vpidIndex, env).argv != RequestFor(b, argv, vpidIndex, env).argv
    ensures RequestFor(a, argv, vpidIndex, env).env == RequestFor(b, argv, vpidIndex, env).env == env
  {
    var ra, rb := RequestFor(a, argv, vpidIndex, env).argv, RequestFor(b, argv, vpidIndex, env).argv;
    assert ra[vpidIndex] == RankString(a.value.rank) && rb[vpidIndex] == RankString(b.value.rank);
    RankStringInjective(a.value.rank, b.value.rank);
  }

  /** tm_spawn writes at index `launched` of two arrays of num_new_daemons
      entries; every attempt of the round must land inside them. */
  predicate SpawnIndicesFit(launched: nat, m: JobMap, reply: nat -> int, k0: nat) {
    launched + Attempts(Eligible(m.nodes), reply, k0) <= m.numNewDaemons
  }

  /** Because `launched` is never reset, a second round over a map whose
      new daemons are exactly its pending nodes fits only when no earlier
      round issued a spawn. */
  lemma SecondRoundDoesNotFit(launched: nat, m: JobMap, reply: nat -> int, k0: nat)
    requires |Eligible(m.nodes)| == m.numNewDaemons
    requires FailIndex(Eligible(m.nodes), reply, k0) == m.numNewDaemons
    ensures SpawnIndicesFit(launched, m, reply, k0) <==> launched == 0
  {
  }

  /** What one round of spawns leaves behind: the log holds one request
      per attempt, built from the daemon environment, and `launched` grew
      by the number of spawns that went through. */
  ghost predicate SpawnOutcome(launched0: nat, launched: nat, log0: seq<SpawnRequest>, log: seq<SpawnRequest>,
                               reply: nat -> int, nodes: seq<Option<Node>>, ctx: LaunchContext, prefixDir: Option<string>)
  {
    && ctx.vpidIndex < |ctx.argv|
    && SpawnLog(log0, log, nodes, reply, ctx.argv, ctx.vpidIndex,
                DaemonEnv(ctx.launchEnv, ctx.plmVar, ctx.umask, prefixDir, ctx.binBase, ctx.libBase))
    && launched == launched0 + FailIndex(Eligible(nodes), reply, |log0|)
  }

  /** Where launch_daemons goes after its first checks. */
  datatype Route = ShortCircuit | EarlyFailure | ToConnect

  /** The debugger short circuit, the VM setup failure, the DO_NOT_LAUNCH
      short circuit, the missing map (NOT_FOUND), the zero-new-daemons
      short circuit, in the order the handler tests them. */
  function RouteOf(debugger: bool, vmOk: bool, doNotLaunch: bool, jobMap: Option<JobMap>): Route {
    if debugger then ShortCircuit
    else if !vmOk then EarlyFailure
    else if doNotLaunch then ShortCircuit
    else if jobMap.None? then EarlyFailure
    else if jobMap.value.numNewDaemons == 0 then ShortCircuit
    else ToConnect
  }

  /** The handler reaches the spawn loop only past every early exit and a
      successful (or earlier) connection. */
  predicate ReachesSpawnLoop(debugger: bool, vmOk: bool, doNotLaunch: bool, jobMap: Option<JobMap>,
                             connected: bool, initReply: nat -> int, initCalls: nat)
  {
    RouteOf(debugger, vmOk, doNotLaunch, jobMap) == ToConnect && (connected || ConnectSucceeds(initReply, initCalls))
  }

  // ---------------------------------------------------------------------
  // Specification of poll_spawns
  // ---------------------------------------------------------------------

  predicate PollOk(r: PollReply) {
    r.rc == TM_SUCCESS && r.localErr == TM_SUCCESS
  }

  /** The number of leading successful polls among the n tm_poll calls
      starting at call number k0 + j. */
  function PollFailIndexFrom(reply: nat -> PollReply, k0: nat, n: nat, j: nat): (r: nat)
    requires j <= n
    ensures j <= r <= n
    ensures forall k :: k0 + j <= k < k0 + r ==> PollOk(reply(k))
    ensures r < n ==> !PollOk(reply(k0 + r))
    decreases n - j
  {
    if j == n || !PollOk(reply(k0 + j)) then j else PollFailIndexFrom(reply, k0, n, j + 1)
  }

  function PollFailIndex(reply: nat -> PollReply, k0: nat, n: nat): (r: nat)
    ensures r <= n
  {
    PollFailIndexFrom(reply, k0, n, 0)
  }

  /** Polls k0 .. k0 + i - 1 succeeded and poll k0 + i (if i < n) failed:
      the round stops after poll i. */
  lemma PollFailAt(reply: nat -> PollReply, k0: nat, n: nat, i: nat)
    requires i <= n
    requires forall k :: k0 <= k < k0 + i ==> PollOk(reply(k))
    requires i < n ==> !PollOk(reply(k0 + i))
    ensures PollFailIndex(reply, k0, n) == i
  {
    var f := PollFailIndex(reply, k0, n);
    assert f < n ==> !PollOk(reply(k0 + f));
  }

  /** The round fails iff some of the n polls fails; then it stops right
      after the first failure. */
  lemma PollFailsIff(reply: nat -> PollReply, k0: nat, n: nat)
    ensures PollFailIndex(reply, k0, n) < n <==> exists k :: k0 <= k < k0 + n && !PollOk(reply(k))
  {
    var f := PollFailIndex(reply, k0, n);
    if f < n {
      assert !PollOk(reply(k0 + f));
    }
  }

  // ---------------------------------------------------------------------
  // The module and its handlers
  // ---------------------------------------------------------------------

  /** The inputs the handler takes from helpers outside this model: the
      launch environment, the name of the plm selection variable, the
      umask, the basenames of the library and binary directories, and the
      daemon command line with the index of its vpid slot. */
  datatype LaunchContext = LaunchContext(
    launchEnv: seq<string>, plmVar: string, umask: nat, binBase: string, libBase: string,
    argv: seq<string>, vpidIndex: nat)

  class TmModule {
    /** Spawns issued so far by this process (the static `launched`). */
    var launched: nat
    /** Whether tm_init has succeeded (the static `connected`). */
    var connected: bool
    /** prte_plm_globals.daemon_nodes_assigned_at_launch. */
    var daemonNodesAssignedAtLaunch: bool

    constructor ()
      ensures launched == 0 && !connected && !daemonNodesAssignedAtLaunch
    {
      launched, connected, daemonNodesAssignedAtLaunch := 0, false, false;
    }

    /** plm_tm_init: the comm_start status is only logged; the handlers are
        registered for LAUNCH_DAEMONS and DAEMONS_LAUNCHED, stopping at the
        first registration that fails. */
    method PlmInit(sm: StateMachine, commRc: Status, addRc: Status, setRc: Status) returns (rc: Status)
      modifies this`daemonNodesAssignedAtLaunch, sm`handlers
      ensures daemonNodesAssignedAtLaunch
      ensures rc == if addRc != Success then addRc else setRc
      ensures sm.handlers ==
        if addRc != Success then old(sm.handlers)
        else if setRc != Success then old(sm.handlers)[JobState.LaunchDaemons := LaunchDaemonsHandler]
        else old(sm.handlers)[JobState.LaunchDaemons := LaunchDaemonsHandler][DaemonsLaunched := PollSpawnsHandler]
    {
      daemonNodesAssignedAtLaunch := true;
      rc := sm.Register(JobState.LaunchDaemons, LaunchDaemonsHandler, addRc);
      if rc != Success {
        return;
      }
      rc := sm.Register(DaemonsLaunched, PollSpawnsHandler, setRc);
    }

    /** plm_tm_launch_job: a restarting job goes straight to MAP, any other
        to INIT; the call always succeeds. */
    method LaunchJob(jdata: Job, sm: StateMachine) returns (rc: Status)
      modifies sm`activations
      ensures rc == Success
      ensures sm.activations == old(sm.activations) + [Activation(jdata, if Restart in jdata.flags then Map else Init)]
    {
      if Restart in jdata.flags {
        sm.Activate(jdata, Map);
      } else {
        sm.Activate(jdata, Init);
      }
      rc := Success;
    }

    /** plm_tm_connect: up to ten tm_init attempts, success on the first
        that succeeds, RESOURCE_BUSY when all fail. */
    method Connect(lib: TmLibrary) returns (rc: Status)
      modifies lib`initCalls
      ensures lib.initCalls == old(lib.initCalls) + ConnectAttempts(lib.initReply, old(lib.initCalls))
      ensures rc == if ConnectSucceeds(lib.initReply, old(lib.initCalls)) then Success else ErrResourceBusy
    {
      var count := 0;
      while count < MaxConnectAttempts
        invariant 0 <= count <= MaxConnectAttempts
        invariant lib.initCalls == old(lib.initCalls) + count
        invariant forall k :: old(lib.initCalls) <= k < old(lib.initCalls) + count ==> lib.initReply(k) != TM_SUCCESS
      {
        var ret := lib.TmInit();
        if ret == TM_SUCCESS {
          ConnectAttemptsAfter(lib.initReply, old(lib.initCalls), count);
          return Success;
        }
        count := count + 1;
      }
      ConnectAttemptsAfter(lib.initReply, old(lib.initCalls), count);
      return ErrResourceBusy;
    }

    /** plm_tm_finalize: tm_finalize only when connected, then the flag is
        cleared, so a second call does nothing more. */
    method PlmFinalize(lib: TmLibrary, commStopRc: Status) returns (rc: Status)
      modifies this`connected, lib`finalizeCalls
      ensures rc == Success && !connected
      ensures lib.finalizeCalls == old(lib.finalizeCalls) + (if old(connected) then 1 else 0)
    {
      if connected {
        lib.TmFinalize();
        connected := false;
      }
      rc := Success;
    }

    /** One pending node of the node loop (plm_tm_module.c:376-408): the
        node's rank in the vpid slot, no spawn without a launch id,
        tm_spawn, its task id and event stored at index `launched`, and
        `launched` counted up when the spawn succeeded. */
    method SpawnNode(lib: TmLibrary, node: Node, argv0: seq<string>, vpidIndex: nat, env: seq<string>,
                     events: array<nat>, taskIds: array<nat>) returns (ok: bool)
      requires vpidIndex < |argv0| && events.Length == taskIds.Length && events != taskIds
      requires node.launchId.Some? ==> launched < events.Length
      modifies this`launched, lib`spawns, events, taskIds
      ensures ok <==> node.launchId.Some? && lib.spawnReply(|old(lib.spawns)|) == TM_SUCCESS
      ensures lib.spawns == old(lib.spawns) +
                (if node.launchId.Some? then [RequestFor(Some(node), argv0, vpidIndex, env)] else [])
      ensures launched == old(launched) + (if ok then 1 else 0)
      ensures events[..] == if node.launchId.Some? then old(events[..])[old(launched) := |old(lib.spawns)|] else old(events[..])
      ensures taskIds[..] == if node.launchId.Some? then old(taskIds[..])[old(launched) := |old(lib.spawns)|] else old(taskIds[..])
    {
      // only the vpid slot of the shared argv changes from node to node
      var argv := argv0[vpidIndex := RankString(node.rank)];
      if node.launchId.None? {
        return false;
      }
      var rc, taskId, event := lib.TmSpawn(argv, env, node.launchId.value);
      taskIds[launched] := taskId;
      events[launched] := event;
      if rc != TM_SUCCESS {
        return false;
      }
      launched := launched + 1;
      ok := true;
    }

    /** SpawnNode for the pending slot `pending[e]` of a round whose first
        spawn call was number |log0| and that started with `launched` at
        l0 and the arrays at ev0 and tk0: the round's log, counter and
        arrays move on from e attempts to e + 1 when the spawn succeeded,
        and to all of the round's attempts when it failed. */
    method AttemptNode(lib: TmLibrary, node: Node, argv0: seq<string>, vpidIndex: nat, env: seq<string>,
                       events: array<nat>, taskIds: array<nat>, ghost pending: seq<Option<Node>>, ghost e: nat,
                       ghost log0: seq<SpawnRequest>, ghost l0: nat, ghost ev0: seq<nat>, ghost tk0: seq<nat>)
      returns (ok: bool)
      requires vpidIndex < |argv0| && events.Length == taskIds.Length && events != taskIds
      requires forall k :: 0 <= k < |pending| ==> pending[k].Some?
      requires e < |pending| && pending[e] == Some(node) && e <= FailIndex(pending, lib.spawnReply, |log0|)
      requires l0 + Attempts(pending, lib.spawnReply, |log0|) <= events.Length == |ev0| == |tk0|
      requires launched == l0 + e && lib.spawns == log0 + Requests(pending[..e], argv0, vpidIndex, env)
      requires events[..] == Stamped(ev0, l0, |log0|, e) && taskIds[..] == Stamped(tk0, l0, |log0|, e)
      modifies this`launched, lib`spawns, events, taskIds
      ensures ok ==> e < FailIndex(pending, lib.spawnReply, |log0|)
      ensures !ok ==> FailIndex(pending, lib.spawnReply, |log0|) == e
      ensures launched == l0 + (if ok then e + 1 else e)
      ensures var n := if ok then e + 1 else Attempts(pending, lib.spawnReply, |log0|);
              n <= |pending| && lib.spawns == log0 + Requests(pending[..n], argv0, vpidIndex, env) &&
              events[..] == Stamped(ev0, l0, |log0|, n) && taskIds[..] == Stamped(tk0, l0, |log0|, n)
    {
      ghost var k0 := |log0|;
      AttemptsAt(pending, lib.spawnReply, k0, e);
      AppendRequest(log0, pending, e, argv0, vpidIndex, env);
      assert |lib.spawns| == k0 + e;
      if node.launchId.Some? {
        StampedNext(ev0, l0, k0, e);
        StampedNext(tk0, l0, k0, e);
      }
      ok := SpawnNode(lib, node, argv0, vpidIndex, env, events, taskIds);
    }

    /** The node loop of launch_daemons (plm_tm_module.c:360-409). */
    method SpawnLoop(lib: TmLibrary, nodes: seq<Option<Node>>, argv0: seq<string>, vpidIndex: nat,
                     env: seq<string>, events: array<nat>, taskIds: array<nat>) returns (ok: bool)
      requires vpidIndex < |argv0| && events.Length == taskIds.Length && events != taskIds
      requires launched + Attempts(Eligible(nodes), lib.spawnReply, |lib.spawns|) <= events.Length
      modifies this`launched, lib`spawns, events, taskIds
      ensures ok <==> FailIndex(Eligible(nodes), lib.spawnReply, |old(lib.spawns)|) == |Eligible(nodes)|
      ensures launched == old(launched) + FailIndex(Eligible(nodes), lib.spawnReply, |old(lib.spawns)|)
      ensures SpawnLog(old(lib.spawns), lib.spawns, nodes, lib.spawnReply, argv0, vpidIndex, env)
      // attempt j of the round stores call number |old(lib.spawns)| + j at slot old(launched) + j
      ensures events[..] == Stamped(old(events[..]), old(launched), |old(lib.spawns)|,
                                    Attempts(Eligible(nodes), lib.spawnReply, |old(lib.spawns)|))
      ensures taskIds[..] == Stamped(old(taskIds[..]), old(launched), |old(lib.spawns)|,
                                     Attempts(Eligible(nodes), lib.spawnReply, |old(lib.spawns)|))
    {
      ghost var pending := Eligible(nodes);
      ghost var log0 := lib.spawns;
      ghost var k0 := |lib.spawns|;
      ghost var reply := lib.spawnReply;
      ghost var l0 := launched;
      ghost var ev0, tk0 := events[..], taskIds[..];
      ghost var e := 0;
      StampedNone(ev0, l0, k0);
      StampedNone(tk0, l0, k0);
      var i := 0;
      while i < |nodes|
        invariant 0 <= i <= |nodes| && e <= FailIndex(pending, reply, k0)
        invariant Eligible(nodes[..i]) == pending[..e]
        invariant launched == l0 + e
        invariant lib.spawns == log0 + Requests(pending[..e], argv0, vpidIndex, env)
        invariant events[..] == Stamped(ev0, l0, k0, e) && taskIds[..] == Stamped(tk0, l0, k0, e)
      {
        EligibleStep(nodes, i, e);
        if nodes[i].None? || nodes[i].value.daemonLaunched {
          i := i + 1;
          continue;
        }
        FilterSound(nodes, Pending);
        ok := AttemptNode(lib, nodes[i].value, argv0, vpidIndex, env, events, taskIds, pending, e, log0, l0, ev0, tk0);
        if !ok {
          return;
        }
        e := e + 1;
        i := i + 1;
      }
      assert nodes[..|nodes|] == nodes;
      assert pending[..e] == pending;
      ok := true;
    }

    /** launch_daemons, the LAUNCH_DAEMONS handler. */
    method LaunchDaemonsRound(state: Caddy, daemons: Job, vmOk: bool, ctx: LaunchContext, lib: TmLibrary, sm: StateMachine)
      requires state.refCount > 0
      requires ctx.vpidIndex < |ctx.argv|
      requires |state.jdata.apps| > 0
      requires ReachesSpawnLoop(DebuggerDaemon in state.jdata.flags, vmOk, daemons.doNotLaunch, daemons.jobMap,
                                connected, lib.initReply, lib.initCalls)
               ==> SpawnIndicesFit(launched, daemons.jobMap.value, lib.spawnReply, |lib.spawns|)
      modifies this`launched, this`connected, lib`initCalls, lib`spawns, sm`activations,
               state`refCount, state`readsAfterFree, state.jdata`state, daemons`state
      // the request object is released exactly once, on every path
      ensures state.refCount == old(state.refCount) - 1
      ensures state.readsAfterFree == old(state.readsAfterFree)
      // short circuits: DAEMONS_LAUNCHED, DAEMONS_REPORTED activated, nothing spawned
      ensures RouteOf(DebuggerDaemon in state.jdata.flags, vmOk, daemons.doNotLaunch, daemons.jobMap) == ShortCircuit ==>
        && state.jdata.state == DaemonsLaunched
        && (daemons != state.jdata ==> daemons.state == old(daemons.state))
        && sm.activations == old(sm.activations) + [Activation(state.jdata, DaemonsReported)]
        && lib.initCalls == old(lib.initCalls) && lib.spawns == old(lib.spawns)
        && launched == old(launched) && connected == old(connected)
      // VM setup failure, missing map: FAILED_TO_START on the daemons job, nothing spawned
      ensures RouteOf(DebuggerDaemon in state.jdata.flags, vmOk, daemons.doNotLaunch, daemons.jobMap) == EarlyFailure ==>
        && state.jdata.state == old(state.jdata.state) && daemons.state == old(daemons.state)
        && sm.activations == old(sm.activations) + [Activation(daemons, FailedToStart)]
        && lib.initCalls == old(lib.initCalls) && lib.spawns == old(lib.spawns)
        && launched == old(launched) && connected == old(connected)
      // connecting: only when not yet connected
      ensures RouteOf(DebuggerDaemon in state.jdata.flags, vmOk, daemons.doNotLaunch, daemons.jobMap) == ToConnect ==>
        && lib.initCalls == old(lib.initCalls) + (if old(connected) then 0 else ConnectAttempts(lib.initReply, old(lib.initCalls)))
        && connected == (old(connected) || ConnectSucceeds(lib.initReply, old(lib.initCalls)))
      // connect failure: FAILED_TO_START, nothing spawned
      ensures RouteOf(DebuggerDaemon in state.jdata.flags, vmOk, daemons.doNotLaunch, daemons.jobMap) == ToConnect
              && !old(connected) && !ConnectSucceeds(lib.initReply, old(lib.initCalls)) ==>
        && state.jdata.state == old(state.jdata.state) && daemons.state == old(daemons.state)
        && sm.activations == old(sm.activations) + [Activation(daemons, FailedToStart)]
        && lib.spawns == old(lib.spawns) && launched == old(launched)
      // the spawn loop: requests in node order, fail fast, counted in `launched`
      ensures ReachesSpawnLoop(DebuggerDaemon in state.jdata.flags, vmOk, daemons.doNotLaunch, daemons.jobMap,
                               old(connected), lib.initReply, old(lib.initCalls)) ==>
        && SpawnOutcome(old(launched), launched, old(lib.spawns), lib.spawns, lib.spawnReply,
                        daemons.jobMap.value.nodes, ctx, state.jdata.apps[0].prefixDir)
        && var f := FailIndex(Eligible(daemons.jobMap.value.nodes), lib.spawnReply, |old(lib.spawns)|);
           && (f == |Eligible(daemons.jobMap.value.nodes)| ==>
                 && state.jdata.state == DaemonsLaunched && daemons.state == DaemonsLaunched
                 && sm.activations == old(sm.activations))
           && (f < |Eligible(daemons.jobMap.value.nodes)| ==>
                 && state.jdata.state == old(state.jdata.state) && daemons.state == old(daemons.state)
                 && sm.activations == old(sm.activations) + [Activation(daemons, FailedToStart)])
    {
      var jdata := state.Job();
      var route := RouteOf(DebuggerDaemon in jdata.flags, vmOk, daemons.doNotLaunch, daemons.jobMap);
      if route == ShortCircuit {
        ReportLaunched(state, sm);
        return;
      }
      if route == EarlyFailure {
        Cleanup(state, daemons, sm, true);
        return;
      }
      ConnectAndSpawn(state, daemons, daemons.jobMap.value, ctx, lib, sm);
    }

    /** launch_daemons past its early exits: connect when not yet
        connected, then spawn. */
    method ConnectAndSpawn(state: Caddy, daemons: Job, m: JobMap, ctx: LaunchContext, lib: TmLibrary, sm: StateMachine)
      requires state.refCount > 0 && ctx.vpidIndex < |ctx.argv| && |state.jdata.apps| > 0
      requires daemons.jobMap == Some(m)
      requires (connected || ConnectSucceeds(lib.initReply, lib.initCalls)) ==>
                 SpawnIndicesFit(launched, m, lib.spawnReply, |lib.spawns|)
      modifies this`launched, this`connected, lib`initCalls, lib`spawns, sm`activations,
               state`refCount, state.jdata`state, daemons`state
      ensures state.refCount == old(state.refCount) - 1
      ensures lib.initCalls == old(lib.initCalls) + (if old(connected) then 0 else ConnectAttempts(lib.initReply, old(lib.initCalls)))
      ensures connected == (old(connected) || ConnectSucceeds(lib.initReply, old(lib.initCalls)))
      ensures !connected ==>
        && state.jdata.state == old(state.jdata.state) && daemons.state == old(daemons.state)
        && sm.activations == old(sm.activations) + [Activation(daemons, FailedToStart)]
        && lib.spawns == old(lib.spawns) && launched == old(launched)
      ensures connected ==> SpawnOutcome(old(launched), launched, old(lib.spawns), lib.spawns, lib.spawnReply,
                                         m.nodes, ctx, state.jdata.apps[0].prefixDir)
      ensures connected ==>
        var f := FailIndex(Eligible(m.nodes), lib.spawnReply, |old(lib.spawns)|);
        && (f == |Eligible(m.nodes)| ==>
              && state.jdata.state == DaemonsLaunched && daemons.state == DaemonsLaunched
              && sm.activations == old(sm.activations))
        && (f < |Eligible(m.nodes)| ==>
              && state.jdata.state == old(state.jdata.state) && daemons.state == old(daemons.state)
              && sm.activations == old(sm.activations) + [Activation(daemons, FailedToStart)])
    {
      if !connected {
        var rc := Connect(lib);
        if rc != Success {
          Cleanup(state, daemons, sm, true);
          return;
        }
        connected := true;
      }
      SpawnRound(state, daemons, m, ctx, lib, sm);
    }

    /** launch_daemons once connected: the two arrays of num_new_daemons
        entries, the daemons' environment, the node loop, then DAEMONS_LAUNCHED
        on both jobs when every spawn went through and the cleanup. */
    method SpawnRound(state: Caddy, daemons: Job, m: JobMap, ctx: LaunchContext, lib: TmLibrary, sm: StateMachine)
      requires state.refCount > 0 && ctx.vpidIndex < |ctx.argv| && |state.jdata.apps| > 0
      requires SpawnIndicesFit(launched, m, lib.spawnReply, |lib.spawns|)
      modifies this`launched, lib`spawns, sm`activations, state`refCount, state.jdata`state, daemons`state
      ensures state.refCount == old(state.refCount) - 1
      ensures SpawnOutcome(old(launched), launched, old(lib.spawns), lib.spawns, lib.spawnReply,
                           m.nodes, ctx, state.jdata.apps[0].prefixDir)
      ensures var f := FailIndex(Eligible(m.nodes), lib.spawnReply, |old(lib.spawns)|);
        && (f == |Eligible(m.nodes)| ==>
              && state.jdata.state == DaemonsLaunched && daemons.state == DaemonsLaunched
              && sm.activations == old(sm.activations))
        && (f < |Eligible(m.nodes)| ==>
              && state.jdata.state == old(state.jdata.state) && daemons.state == old(daemons.state)
              && sm.activations == old(sm.activations) + [Activation(daemons, FailedToStart)])
    {
      var events := new nat[m.numNewDaemons];
      var taskIds := new nat[m.numNewDaemons];
      var env := DaemonEnvironment(ctx, state.jdata.apps[0].prefixDir);
      var ok := SpawnLoop(lib, m.nodes, ctx.argv, ctx.vpidIndex, env, events, taskIds);
      if ok {
        state.jdata.state := DaemonsLaunched;
        daemons.state := DaemonsLaunched;
      }
      Cleanup(state, daemons, sm, !ok);
    }

    /** The three short circuits of launch_daemons: the job is marked
        DAEMONS_LAUNCHED, DAEMONS_REPORTED is activated, the request released. */
    static method ReportLaunched(state: Caddy, sm: StateMachine)
      requires state.refCount > 0
      modifies state.jdata`state, sm`activations, state`refCount
      ensures state.jdata.state == DaemonsLaunched
      ensures sm.activations == old(sm.activations) + [Activation(state.jdata, DaemonsReported)]
      ensures state.refCount == old(state.refCount) - 1
    {
      state.jdata.state := DaemonsLaunched;
      sm.Activate(state.jdata, DaemonsReported);
      state.Release();
    }

    /** The environment handed to every tm_spawn: the launch environment
        with the plm selection variable set to "rsh", the umask variable
        set, and PATH / LD_LIBRARY_PATH prefixed when the first app
        context has a prefix directory. */
    static method DaemonEnvironment(ctx: LaunchContext, prefixDir: Option<string>) returns (env: seq<string>)
      ensures env == DaemonEnv(ctx.launchEnv, ctx.plmVar, ctx.umask, prefixDir, ctx.binBase, ctx.libBase)
    {
      env := ctx.launchEnv;
      env := SetEnv(ctx.plmVar, "rsh", env);
      env := SetEnv(UmaskVar, UmaskString(ctx.umask), env);
      if prefixDir.Some? {
        env := RewritePrefix(env, prefixDir.value, ctx.binBase, ctx.libBase);
      }
    }

    /** The `cleanup:` label: release the request, then activate
        FAILED_TO_START on the daemons job when the launch failed. */
    static method Cleanup(state: Caddy, daemons: Job, sm: StateMachine, failedLaunch: bool)
      requires state.refCount > 0
      modifies state`refCount, sm`activations
      ensures state.refCount == old(state.refCount) - 1
      ensures sm.activations == old(sm.activations) + (if failedLaunch then [Activation(daemons, FailedToStart)] else [])
    {
      state.Release();
      if failedLaunch {
        sm.Activate(daemons, FailedToStart);
      }
    }

    /** The polling loop of poll_spawns: at most n tm_poll calls, stopping
        at the first one that fails or reports a local error. */
    static method PollRound(lib: TmLibrary, n: nat) returns (failed: bool)
      modifies lib`pollCalls
      ensures var f := PollFailIndex(lib.pollReply, old(lib.pollCalls), n);
        && failed == (f < n)
        && lib.pollCalls == old(lib.pollCalls) + (if f < n then f + 1 else n)
    {
      var i := 0;
      while i < n
        invariant 0 <= i <= n
        invariant lib.pollCalls == old(lib.pollCalls) + i
        invariant forall k :: old(lib.pollCalls) <= k < old(lib.pollCalls) + i ==> PollOk(lib.pollReply(k))
      {
        var rc, localErr := lib.TmPoll();
        if rc != TM_SUCCESS || localErr != TM_SUCCESS {
          PollFailAt(lib.pollReply, old(lib.pollCalls), n, i);
          return true;
        }
        i := i + 1;
      }
      PollFailAt(lib.pollReply, old(lib.pollCalls), n, i);
      failed := false;
    }

    /** poll_spawns, the DAEMONS_LAUNCHED handler, as written: `launched`
        polls at most, stopping at the first failed one; on failure the job
        is read from the request object after it was released. */
    method PollSpawns(state: Caddy, lib: TmLibrary, sm: StateMachine)
      requires state.refCount > 0
      modifies lib`pollCalls, sm`activations, state`refCount, state`readsAfterFree
      ensures state.refCount == old(state.refCount) - 1
      ensures var f := PollFailIndex(lib.pollReply, old(lib.pollCalls), launched);
        && lib.pollCalls == old(lib.pollCalls) + (if f < launched then f + 1 else launched)
        && sm.activations == old(sm.activations) + (if f < launched then [Activation(state.jdata, FailedToStart)] else [])
        && state.readsAfterFree == old(state.readsAfterFree) + (if f < launched && old(state.refCount) == 1 then 1 else 0)
    {
      var failedLaunch := PollRound(lib, launched);
      state.Release();
      if failedLaunch {
        var j := state.Job();
        sm.Activate(j, FailedToStart);
      }
    }

    /** poll_spawns with the job taken from the request object before it is
        released: the same polls and activations, and no read after free. */
    method PollSpawnsReadFirst(state: Caddy, lib: TmLibrary, sm: StateMachine)
      requires state.refCount > 0
      modifies lib`pollCalls, sm`activations, state`refCount, state`readsAfterFree
      ensures state.refCount == old(state.refCount) - 1
      ensures var f := PollFailIndex(lib.pollReply, old(lib.pollCalls), launched);
        && lib.pollCalls == old(lib.pollCalls) + (if f < launched then f + 1 else launched)
        && sm.activations == old(sm.activations) + (if f < launched then [Activation(state.jdata, FailedToStart)] else [])
        && state.readsAfterFree == old(state.readsAfterFree)
    {
      var j := state.Job();
      var failedLaunch := PollRound(lib, launched);
      state.Release();
      if failedLaunch {
        sm.Activate(j, FailedToStart);
      }
    }
  }

  /** One spawn made, its poll failing, the request object holding its
      only reference: poll_spawns as written reads the released object once,
      the corrected handler never does. */
  method PollFailureAfterRelease() returns (asWritten: nat, readFirst: nat)
    ensures asWritten == 1 && readFirst == 0
  {
    var job := new Job(DaemonsLaunched, {}, false, None, []);
    var lib := new TmLibrary(k => TM_SUCCESS, k => TM_SUCCESS, k => PollReply(1, TM_SUCCESS));
    var sm := new StateMachine();
    var plm := new TmModule();
    plm.launched := 1;
    assert PollFailIndex(lib.pollReply, 0, 1) == 0;
    assert PollFailIndex(lib.pollReply, 1, 1) == 0;
    var state := new Caddy(job);
    plm.PollSpawns(state, lib, sm);
    asWritten := state.readsAfterFree;
    var state2 := new Caddy(job);
    plm.PollSpawnsReadFirst(state2, lib, sm);
    readFirst := state2.readsAfterFree;
  }
}
