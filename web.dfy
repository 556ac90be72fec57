/**
 * Route registration in index.js: `web.get`, `web.post` and `web.url` copy the
 * entries of a handler object into a server's table, and `web.run` creates the
 * first server and copies its `getpath` rules into that server's URL table.
 * Each copy is a `for ... in` loop assigning key by key, so the result is
 * `Merge` of the old table with the object: the insertion order of that merge
 * is the precedence of the router's first-match scans.
 */
module Web {

  import opened Options
  import opened Tables
  import opened Router
  import opened Http

  /** `for (key in u) t[key] = u[key]`. */
  method CopyEntries<V>(t: Table<V>, u: Table<V>) returns (r: Table<V>)
    ensures r == Merge(t, u)
  {
    r := t;
    var i := 0;
    while i < |u|
      invariant 0 <= i <= |u|
      invariant r == Merge(t, u[..i])
    {
      assert u[..i + 1][..i] == u[..i];
      r := Put(r, u[i].key, u[i].value);
      i := i + 1;
    }
    assert u[..i] == u;
  }

  /** The framework object: the current server (`web.server`) and every server created. */
  class Framework {
    var server: Server?
    var servers: seq<Server>

    /** The current server, when there is one, keeps its tables free of repeated keys. */
    predicate Valid()
      reads this, server
    {
      server != null ==> server.Valid()
    }

    constructor ()
      ensures server == null && servers == []
      ensures Valid()
    {
      server := null;
      servers := [];
    }

    /** The server a registration call writes to: the one given, else the current one. */
    function Target(given: Server?): Server?
      reads this
    {
      if given != null then given else server
    }

    /** `web.get(handlers, given)`: the handlers are merged into the target's GET table; it returns `this`. */
    method Get(handlers: Table<Handler>, given: Server?) returns (self: Framework)
      requires Target(given) != null
      modifies Target(given)
      ensures self == this
      ensures Target(given).getHandlers == Merge(old(Target(given).getHandlers), handlers)
      ensures old(Target(given).Valid()) ==> Target(given).Valid()
      ensures old(Valid()) && old(Target(given).Valid()) ==> Valid()
      ensures Target(given).urlHandlers == old(Target(given).urlHandlers)
      ensures Target(given).postHandlers == old(Target(given).postHandlers)
      ensures Target(given).erorrHandlers == old(Target(given).erorrHandlers)
      ensures Target(given).blockMimes == old(Target(given).blockMimes)
    {
      var s := Target(given);
      if s.Valid() {
        MergeDistinct(s.getHandlers, handlers);
      }
      s.getHandlers := CopyEntries(s.getHandlers, handlers);
      self := this;
    }

    /** `web.post(handlers, given)`: the same merge, into the target's POST table. */
    method Post(handlers: Table<Handler>, given: Server?) returns (self: Framework)
      requires Target(given) != null
      modifies Target(given)
      ensures self == this
      ensures Target(given).postHandlers == Merge(old(Target(given).postHandlers), handlers)
      ensures old(Target(given).Valid()) ==> Target(given).Valid()
      ensures old(Valid()) && old(Target(given).Valid()) ==> Valid()
      ensures Target(given).urlHandlers == old(Target(given).urlHandlers)
      ensures Target(given).getHandlers == old(Target(given).getHandlers)
      ensures Target(given).erorrHandlers == old(Target(given).erorrHandlers)
      ensures Target(given).blockMimes == old(Target(given).blockMimes)
    {
      var s := Target(given);
      if s.Valid() {
        MergeDistinct(s.postHandlers, handlers);
      }
      s.postHandlers := CopyEntries(s.postHandlers, handlers);
      self := this;
    }

    /** `web.url(rules, given)` with an object of rules: the same merge, into the target's URL table. */
    method Url(rules: Table<string>, given: Server?) returns (self: Framework)
      requires Target(given) != null
      modifies Target(given)
      ensures self == this
      ensures Target(given).urlHandlers == Merge(old(Target(given).urlHandlers), rules)
      ensures old(Target(given).Valid()) ==> Target(given).Valid()
      ensures old(Valid()) && old(Target(given).Valid()) ==> Valid()
      ensures Target(given).getHandlers == old(Target(given).getHandlers)
      ensures Target(given).postHandlers == old(Target(given).postHandlers)
      ensures Target(given).erorrHandlers == old(Target(given).erorrHandlers)
      ensures Target(given).blockMimes == old(Target(given).blockMimes)
    {
      var s := Target(given);
      if s.Valid() {
        MergeDistinct(s.urlHandlers, rules);
      }
      s.urlHandlers := CopyEntries(s.urlHandlers, rules);
      self := this;
    }

    /**
     * `web.run(getpath, port, host, backserver)` for the first server, or again on
     * the current one without `backserver`: create the server if there is none,
     * copy `getpath` into its URL table, and return the server or `this`.
     */
    method Run(getpath: Option<Table<string>>, backserver: bool) returns (result: object)
      requires server == null || !backserver
      modifies this, server
      ensures server != null
      ensures old(server == null || server.Valid()) ==> Valid()
      ensures old(server) == null ==> fresh(server) && servers == old(servers) + [server]
      ensures old(server) == null ==> server.Tables() == Routes(
        if getpath.Some? then Merge([], getpath.value) else [], [], [], [], [])
      ensures old(server) != null ==> server == old(server) && servers == old(servers)
      ensures old(server) != null ==>
        && server.getHandlers == old(server.getHandlers)
        && server.postHandlers == old(server.postHandlers)
        && server.erorrHandlers == old(server.erorrHandlers)
        && server.blockMimes == old(server.blockMimes)
        && server.urlHandlers == (if getpath.Some? then Merge(old(server.urlHandlers), getpath.value) else old(server.urlHandlers))
      ensures backserver ==> result == server
      ensures !backserver ==> result == this
    {
      if server == null {
        var s := new Server();
        servers := servers + [s];
        server := s;
      }
      if getpath.Some? {
        if server.Valid() {
          MergeDistinct(server.urlHandlers, getpath.value);
        }
        server.urlHandlers := CopyEntries(server.urlHandlers, getpath.value);
      }
      if backserver {
        result := server;
      } else {
        result := this;
      }
    }
  }
}
