/**
 * The proxy registry of the proxy server: a cache of at most one connected sidecar proxy,
 * created on first registration and never replaced.
 */
module Registry {
  import opened Bytes

  /**
   * A connected sidecar proxy: its UUID (drawn once, at registration) and the ETag, the
   * hash of the last configuration document published for it.
   */
  class Proxy {
    const uuid: string
    var etag: U64

    constructor (uuid: string)
      ensures this.uuid == uuid && etag == 0
    {
      this.uuid := uuid;
      etag := 0;
    }
  }

  class ProxyRegistry {
    var cacheProxy: Proxy?

    /** NewProxyRegistry: nothing cached yet. */
    constructor ()
      ensures cacheProxy == null
    {
      cacheProxy := null;
    }

    /**
     * RegisterProxy: the cached proxy when there is one; otherwise a new proxy with the
     * given fresh UUID and ETag 0, which becomes the cached one.
     */
    method RegisterProxy(newUUID: string) returns (proxy: Proxy)
      modifies this
      ensures old(cacheProxy) != null ==> proxy == old(cacheProxy)
      ensures old(cacheProxy) == null ==> fresh(proxy) && proxy.uuid == newUUID && proxy.etag == 0
      ensures cacheProxy == proxy
    {
      if cacheProxy == null {
        cacheProxy := new Proxy(newUUID);
      }
      proxy := cacheProxy;
    }

    /** GetConnectedProxy: the cached proxy, null before the first registration. */
    method GetConnectedProxy() returns (proxy: Proxy?)
      ensures proxy == cacheProxy
    {
      proxy := cacheProxy;
    }
  }

  /**
   * Registration is idempotent: a second registration returns the first proxy, whatever
   * UUID it would have drawn, and the connected proxy is that same proxy.
   */
  method RegisterTwice(registry: ProxyRegistry, uuid1: string, uuid2: string) returns (first: Proxy, second: Proxy, connected: Proxy?)
    modifies registry
    ensures first == second && connected == first
    ensures old(registry.cacheProxy) == null ==> fresh(first) && first.uuid == uuid1 && first.etag == 0
    ensures old(registry.cacheProxy) != null ==> first == old(registry.cacheProxy)
  {
    first := registry.RegisterProxy(uuid1);
    second := registry.RegisterProxy(uuid2);
    connected := registry.GetConnectedProxy();
  }
}
