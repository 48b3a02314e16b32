/**
 * The broadcast listener of the proxy server: a debounce loop over proxy-update events and
 * a sliding timer. Updates and retries re-arm the timer; when it fires, one configuration
 * job runs for every connected proxy, and a pending reconfirmation re-arms it once more.
 *
 * The loop is sequential here: each receive of the select is an event, and the timer's
 * state is whether it is armed and for how many seconds it was last armed.
 */
module Broadcast {
  import Bytes
  import opened Wrappers
  import opened Registry
  import PipyPolicy
  import PipyUtil
  import Jobs

  const InitialWaitSeconds := 20
  const SyncWaitSeconds := 5
  const ReconfirmWaitSeconds := 10

  datatype Timer = Unarmed | Armed(seconds: nat)

  /** The listener's state: whether a reconfirmation round is pending, and the sliding timer. */
  datatype ListenerState = ListenerState(reconfirm: bool, timer: Timer)

  /**
   * The events the loop reacts to: an update broadcast, a retry request (retryProxiesJob or
   * UpdateProxies, both the sliding reset), and the timer firing, with whether one of the
   * jobs it ran asked for a retry.
   */
  datatype Event = ProxyUpdate | RetryRequested | TimerFired(jobRetried: bool)

  /** Before the first event: armed for two informer synchronization periods, reconfirmation pending. */
  const Initial := ListenerState(true, Armed(InitialWaitSeconds))

  /** The timer can only fire while armed. */
  predicate Enabled(s: ListenerState, ev: Event) {
    ev.TimerFired? ==> s.timer.Armed?
  }

  /** One turn of the loop. */
  function Next(s: ListenerState, ev: Event): ListenerState {
    match ev
    case ProxyUpdate => ListenerState(true, Armed(SyncWaitSeconds))
    case RetryRequested => s.(timer := Armed(SyncWaitSeconds))
    case TimerFired(jobRetried) =>
      var afterJobs := if jobRetried then Armed(SyncWaitSeconds) else Unarmed;
      if s.reconfirm then ListenerState(false, Armed(ReconfirmWaitSeconds)) else ListenerState(false, afterJobs)
  }

  /** A pending reconfirmation always has an armed timer, so it is never lost. */
  predicate Inv(s: ListenerState) {
    s.reconfirm ==> s.timer.Armed?
  }

  /** The loop's state after a sequence of events. */
  function Trace(s: ListenerState, evs: seq<Event>): ListenerState {
    if evs == [] then s else Next(Trace(s, evs[..|evs| - 1]), evs[|evs| - 1])
  }

  /** Every event keeps the invariant; a fire always clears the pending reconfirmation. */
  lemma NextKeepsInv(s: ListenerState, ev: Event)
    requires Inv(s)
    ensures Inv(Next(s, ev))
    ensures ev.TimerFired? ==> !Next(s, ev).reconfirm
    ensures ev.ProxyUpdate? ==> Next(s, ev).reconfirm
  {
  }

  /** The invariant holds from the start along every sequence of events. */
  lemma {:induction false} TraceKeepsInv(evs: seq<Event>)
    ensures Inv(Trace(Initial, evs))
    decreases |evs|
  {
    if evs != [] {
      TraceKeepsInv(evs[..|evs| - 1]);
      NextKeepsInv(Trace(Initial, evs[..|evs| - 1]), evs[|evs| - 1]);
    }
  }

  /**
   * Debouncing: after an update the next fire runs the jobs and re-arms the timer for the
   * 10-second reconfirmation, and a second fire without retries leaves the loop idle, its
   * timer unarmed, until the next update or retry.
   */
  lemma UpdateThenReconfirm(s: ListenerState)
    ensures var u := Next(s, ProxyUpdate);
      u == ListenerState(true, Armed(SyncWaitSeconds))
      && Next(u, TimerFired(false)) == ListenerState(false, Armed(ReconfirmWaitSeconds))
      && Next(Next(u, TimerFired(false)), TimerFired(false)) == ListenerState(false, Unarmed)
  {
  }

  /** An idle loop stays idle: only an update or a retry arms the timer again. */
  lemma IdleUntilEvent(s: ListenerState, ev: Event)
    requires s == ListenerState(false, Unarmed) && Enabled(s, ev)
    ensures Next(s, ev).timer.Armed?
    ensures ev.RetryRequested? ==> Next(s, ev) == ListenerState(false, Armed(SyncWaitSeconds))
  {
  }

  /** A job asking for a retry makes the timer fire again, 5 seconds later unless a reconfirmation was pending. */
  lemma RetryRefires(s: ListenerState)
    ensures Next(s, TimerFired(true)).timer.Armed?
    ensures !s.reconfirm ==> Next(s, TimerFired(true)).timer == Armed(SyncWaitSeconds)
  {
  }

  /**
   * A job's outcome: the document it built, and the store calls and ETag of publishing that
   * document against the proxy's previous ETag.
   */
  predicate Published(e: Jobs.JobEnv, before: Bytes.U64, doc: PipyPolicy.PipyConfValue, calls: seq<Jobs.StoreCall>, etag: Bytes.U64)
    requires PipyUtil.ConfigsNamed(e.policy)
  {
    var p := Jobs.Publish(before, doc, [], e.publish);
    Jobs.Built(doc, e) && calls == p.calls && etag == p.etag
  }

  /** The listener of one proxy server: the loop's state and the proxy registry it reads. */
  class Listener {
    var reconfirm: bool
    var timer: Timer
    const registry: ProxyRegistry

    function Value(): ListenerState
      reads this
    {
      ListenerState(reconfirm, timer)
    }

    /** Entering broadcastListener: the 20-second timer armed and a reconfirmation pending. */
    constructor (registry: ProxyRegistry)
      ensures Value() == Initial && this.registry == registry
    {
      reconfirm := true;
      timer := Armed(InitialWaitSeconds);
      this.registry := registry;
    }

    /** An update broadcast: wait one synchronization period and reconfirm afterwards. */
    method OnProxyUpdate()
      modifies this
      ensures Value() == Next(old(Value()), ProxyUpdate)
    {
      timer := Armed(SyncWaitSeconds);
      reconfirm := true;
    }

    /** slidingTimerReset, the hook installed as retryProxiesJob and UpdateProxies. */
    method SlidingTimerReset()
      modifies this
      ensures Value() == Next(old(Value()), RetryRequested)
    {
      timer := Armed(SyncWaitSeconds);
    }

    /**
     * fireExistProxies: exactly one proxy, the cached one, or a newly registered one when
     * none is cached.
     */
    method FireExistProxies(newUUID: string) returns (allProxies: seq<Proxy>)
      modifies registry
      ensures |allProxies| == 1 && allProxies[0] == registry.cacheProxy
      ensures old(registry.cacheProxy) != null ==> allProxies[0] == old(registry.cacheProxy)
      ensures old(registry.cacheProxy) == null ==> fresh(allProxies[0]) && allProxies[0].uuid == newUUID && allProxies[0].etag == 0
    {
      var connectedProxy := registry.GetConnectedProxy();
      if connectedProxy == null {
        connectedProxy := registry.RegisterProxy(newUUID);
      }
      allProxies := [connectedProxy];
    }

    /**
     * One job for a connected proxy, created with slidingTimerReset as its retry hook: the
     * document it builds, its store calls, and whether it called the hook. The calls and the
     * proxy's new ETag are those of publishing the built document against the ETag it had.
     */
    method RunJob(proxy: Proxy, e: Jobs.JobEnv) returns (doc: PipyPolicy.PipyConfValue, calls: seq<Jobs.StoreCall>, retried: bool)
      requires PipyUtil.ConfigsNamed(e.policy)
      modifies proxy
      ensures Published(e, old(proxy.etag), doc, calls, proxy.etag)
      ensures retried <==> !Jobs.OutboundReady(PipyPolicy.EmptyOutboundTrafficPolicy, e.policy, e.compile, e.upstream)
    {
      doc, calls, retried := Jobs.Run(proxy, e.(hasRetry := true));
    }

    /**
     * One turn of the fire loop: the job for one proxy, then a timer reset when it asked for
     * a retry.
     */
    method RunJobAndReset(proxy: Proxy, e: Jobs.JobEnv) returns (doc: PipyPolicy.PipyConfValue, calls: seq<Jobs.StoreCall>, retried: bool)
      requires PipyUtil.ConfigsNamed(e.policy)
      modifies this, proxy
      ensures Published(e, old(proxy.etag), doc, calls, proxy.etag)
      ensures retried <==> !Jobs.OutboundReady(PipyPolicy.EmptyOutboundTrafficPolicy, e.policy, e.compile, e.upstream)
      ensures reconfirm == old(reconfirm) && timer == if retried then Armed(SyncWaitSeconds) else old(timer)
    {
      doc, calls, retried := RunJob(proxy, e);
      if retried {
        SlidingTimerReset();
      }
    }

    /**
     * The loop of a fire over the connected proxies, each job run to completion in turn with
     * the retry hook installed; a job that is not ready resets the timer.
     */
    method RunJobs(connectedProxies: seq<Proxy>, e: Jobs.JobEnv) returns (doc: PipyPolicy.PipyConfValue,
                                                                       calls: seq<Jobs.StoreCall>, jobRetried: bool)
      requires PipyUtil.ConfigsNamed(e.policy)
      requires |connectedProxies| == 1 && timer == Unarmed
      modifies this, connectedProxies[0]
      ensures reconfirm == old(reconfirm)
      ensures timer == if jobRetried then Armed(SyncWaitSeconds) else Unarmed
      ensures Published(e, old(connectedProxies[0].etag), doc, calls, connectedProxies[0].etag)
      ensures jobRetried <==> !Jobs.OutboundReady(PipyPolicy.EmptyOutboundTrafficPolicy, e.policy, e.compile, e.upstream)
    {
      ghost var before := connectedProxies[0].etag;
      doc := PipyPolicy.PipyConfValue(None, None, PipyPolicy.MeshConfigSpec("", None), None, map[], map[]);
      calls, jobRetried := [], false;
      for i := 0 to |connectedProxies|
        invariant reconfirm == old(reconfirm)
        invariant timer == if jobRetried then Armed(SyncWaitSeconds) else Unarmed
        invariant jobRetried <==> i == 1 && !Jobs.OutboundReady(PipyPolicy.EmptyOutboundTrafficPolicy, e.policy, e.compile, e.upstream)
        invariant i == 0 ==> calls == [] && connectedProxies[0].etag == before
        invariant i == 1 ==> Published(e, before, doc, calls, connectedProxies[0].etag)
      {
        var jobCalls, retried;
        doc, jobCalls, retried := RunJobAndReset(connectedProxies[i], e);
        assert calls + jobCalls == jobCalls;
        calls := calls + jobCalls;
        jobRetried := jobRetried || retried;
      }
    }

    /**
     * The timer fires: the jobs run on the connected proxies. Then a pending reconfirmation
     * is cleared and the timer re-armed for 10 seconds. The one proxy is the cached one, or a
     * new one with ETag 0, and its job publishes the built document to it.
     */
    method OnTimerFire(e: Jobs.JobEnv, newUUID: string) returns (proxy: Proxy, doc: PipyPolicy.PipyConfValue,
                                                                calls: seq<Jobs.StoreCall>, jobRetried: bool)
      requires PipyUtil.ConfigsNamed(e.policy)
      requires timer.Armed?
      modifies this, registry, registry.cacheProxy
      ensures Value() == Next(old(Value()), TimerFired(jobRetried))
      ensures proxy == registry.cacheProxy
      ensures old(registry.cacheProxy) != null ==> proxy == old(registry.cacheProxy)
      ensures Published(e, if old(registry.cacheProxy) != null then old(registry.cacheProxy.etag) else 0, doc, calls, proxy.etag)
      ensures jobRetried <==> !Jobs.OutboundReady(PipyPolicy.EmptyOutboundTrafficPolicy, e.policy, e.compile, e.upstream)
    {
      timer := Unarmed;
      var connectedProxies := FireExistProxies(newUUID);
      proxy := connectedProxies[0];
      doc, calls, jobRetried := RunJobs(connectedProxies, e);
      if reconfirm {
        reconfirm := false;
        timer := Armed(ReconfirmWaitSeconds);
      }
    }
  }
}
