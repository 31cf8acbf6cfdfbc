/**
 The hostname cache: two generations, rotated at every List that reads hostnames. While HOSTNAMEs do not
 change it agrees with reading every time, reads an instance once over consecutive Lists, and never holds
 an instance that neither of the last two Lists saw.
 */
module HostCache {
  import opened Identity

  /** What an uncached read of the instance's environment gives, the host's own name included. */
  type Hosts = ProcessId -> string

  datatype Cache = Cache(cur: map<string, string>, prev: map<string, string>)

  /** One lookup: its answer, the cache after it, and whether the environment was read. */
  datatype Looked = Looked(name: string, cache: Cache, read: bool)

  function Lookup(c: Cache, id: ProcessId, host: Hosts): Looked {
    var key := id.Key();
    if key in c.cur then Looked(c.cur[key], c, false)
    else if key in c.prev then Looked(c.prev[key], c.(cur := c.cur[key := c.prev[key]]), false)
    else Looked(host(id), c.(cur := c.cur[key := host(id)]), true)
  }

  /** What a List found and did: the hostnames in order, and the instances whose environment was fetched. */
  datatype Scan = Scan(names: seq<string>, fetched: seq<ProcessId>, cache: Cache)

  function ScanFrom(c: Cache, ids: seq<ProcessId>, host: Hosts): (r: Scan)
    ensures |r.names| == |ids|
  {
    if ids == [] then Scan([], [], c)
    else
      var before := ScanFrom(c, ids[..|ids| - 1], host);
      var id := ids[|ids| - 1];
      var l := Lookup(before.cache, id, host);
      Scan(before.names + [l.name], before.fetched + (if l.read then [id] else []), l.cache)
  }

  /** A List of the instances `ids`; only a List that reads hostnames rotates the generations. */
  function ListOf(c: Cache, ids: seq<ProcessId>, host: Hosts): (r: Scan)
    ensures |r.names| == |ids|
  {
    ScanFrom(Cache(map[], c.cur), ids, host)
  }

  /** The instances that a sequence of Lists found, and what each List did. */
  function ListAll(c: Cache, lists: seq<seq<ProcessId>>, host: Hosts): (rs: seq<Scan>)
    ensures |rs| == |lists|
    decreases |lists|
  {
    if lists == [] then []
    else
      var r := ListOf(c, lists[0], host);
      [r] + ListAll(r.cache, lists[1..], host)
  }

  function Empty(): Cache { Cache(map[], map[]) }

  // ---- What the generations hold ----

  ghost predicate Holds(m: map<string, string>, ids: seq<ProcessId>, host: Hosts) {
    && (forall id: ProcessId :: id.Key() in m <==> id in ids)
    && (forall id :: id in ids ==> m[id.Key()] == host(id))
  }

  /** The instances of `ids` not in `known`, at their first occurrence. */
  function FirstSeen(ids: seq<ProcessId>, known: seq<ProcessId>): seq<ProcessId> {
    if ids == [] then []
    else
      var id, before := ids[|ids| - 1], ids[..|ids| - 1];
      FirstSeen(before, known) + (if id in known || id in before then [] else [id])
  }

  function NamesOf(ids: seq<ProcessId>, host: Hosts): seq<string> { seq(|ids|, i requires 0 <= i < |ids| => host(ids[i])) }

  lemma HoldsMore(m: map<string, string>, ids: seq<ProcessId>, id: ProcessId, host: Hosts)
    requires Holds(m, ids, host)
    ensures Holds(m[id.Key() := host(id)], ids + [id], host)
    ensures id in ids ==> Holds(m, ids + [id], host)
  {
    hide Identity.Decimal, Identity.SignedDecimal;
    forall x: ProcessId ensures x.Key() == id.Key() <==> x == id {
      KeyInjective(x, id);
    }
  }

  lemma LookupExactly(c: Cache, seen: seq<ProcessId>, known: seq<ProcessId>, id: ProcessId, host: Hosts)
    requires Holds(c.cur, seen, host) && Holds(c.prev, known, host)
    ensures var l := Lookup(c, id, host);
            && l.name == host(id) && (l.read <==> id !in known && id !in seen)
            && Holds(l.cache.cur, seen + [id], host) && l.cache.prev == c.prev
  {
    hide Identity.Decimal, Identity.SignedDecimal;
    HoldsMore(c.cur, seen, id, host);
  }

  lemma {:induction false} ScanExactly(c: Cache, ids: seq<ProcessId>, known: seq<ProcessId>, host: Hosts)
    requires Holds(c.cur, [], host) && Holds(c.prev, known, host)
    ensures var r := ScanFrom(c, ids, host);
            && r.names == NamesOf(ids, host) && r.fetched == FirstSeen(ids, known)
            && Holds(r.cache.cur, ids, host) && r.cache.prev == c.prev
  {
    hide Holds, Lookup;
    if ids != [] {
      var id, seen := ids[|ids| - 1], ids[..|ids| - 1];
      ScanExactly(c, seen, known, host);
      LookupExactly(ScanFrom(c, seen, host).cache, seen, known, id, host);
      assert ids == seen + [id];
    }
  }

  /** The instances the previous List saw, none before the first. */
  function Before(lists: seq<seq<ProcessId>>, k: nat, known: seq<ProcessId>): seq<ProcessId>
    requires k <= |lists|
  {
    if k == 0 then known else lists[k - 1]
  }

  lemma {:induction false} ListsExactly(c: Cache, lists: seq<seq<ProcessId>>, known: seq<ProcessId>, host: Hosts, k: nat)
    requires Holds(c.cur, known, host) && k < |lists|
    ensures var r := ListAll(c, lists, host)[k];
            && r.names == NamesOf(lists[k], host)
            && r.fetched == FirstSeen(lists[k], Before(lists, k, known))
            && Holds(r.cache.cur, lists[k], host)
            && Holds(r.cache.prev, Before(lists, k, known), host)
    decreases |lists|
  {
    hide Holds, ScanFrom, NamesOf, FirstSeen;
    EmptyHolds(host);
    ScanExactly(Cache(map[], c.cur), lists[0], known, host);
    if k > 0 {
      ListsExactly(ListOf(c, lists[0], host).cache, lists[1..], lists[0], host, k - 1);
    }
  }

  lemma EmptyHolds(host: Hosts)
    ensures Holds(map[], [], host)
  {
  }

  // ---- Main results ----

  /** In every run of Lists, the cached hostnames are those of uncached reads. */
  lemma {:induction false} CachedIsUncached(lists: seq<seq<ProcessId>>, host: Hosts, k: nat)
    requires k < |lists|
    ensures ListAll(Empty(), lists, host)[k].names == NamesOf(lists[k], host)
  {
    EmptyHolds(host);
    ListsExactly(Empty(), lists, [], host, k);
  }

  lemma {:induction false} FirstSeenOnce(ids: seq<ProcessId>, known: seq<ProcessId>, id: ProcessId)
    ensures multiset(FirstSeen(ids, known))[id] == if id in ids && id !in known then 1 else 0
  {
    if ids != [] {
      var last, before := ids[|ids| - 1], ids[..|ids| - 1];
      FirstSeenOnce(before, known, id);
      assert ids == before + [last];
    }
  }

  /** A List reads the environment of an instance once if the List before did not see it, and not at all if it did. */
  lemma {:induction false} ReadOnce(lists: seq<seq<ProcessId>>, host: Hosts, k: nat, id: ProcessId)
    requires k < |lists|
    ensures multiset(ListAll(Empty(), lists, host)[k].fetched)[id] ==
            if id in lists[k] && (k == 0 || id !in lists[k - 1]) then 1 else 0
  {
    EmptyHolds(host);
    ListsExactly(Empty(), lists, [], host, k);
    FirstSeenOnce(lists[k], Before(lists, k, []), id);
  }

  /** After a List the two generations hold exactly the instances of the last two Lists. */
  lemma {:induction false} GenerationsHoldLastTwo(lists: seq<seq<ProcessId>>, host: Hosts, k: nat, id: ProcessId)
    requires k < |lists|
    ensures var c := ListAll(Empty(), lists, host)[k].cache;
            && (id.Key() in c.cur <==> id in lists[k])
            && (id.Key() in c.prev <==> k > 0 && id in lists[k - 1])
  {
    EmptyHolds(host);
    ListsExactly(Empty(), lists, [], host, k);
  }

  // ---- The source's own fields ----

  class Source {
    var hostCache: map<string, string>
    var hostCachePrev: map<string, string>
    var readHostname: bool
    ghost var fetched: seq<ProcessId>

    ghost function Abs(): Cache
      reads this
    {
      Cache(hostCache, hostCachePrev)
    }

    constructor ()
      ensures Abs() == Empty() && !readHostname && fetched == []
    {
      hostCache, hostCachePrev, readHostname, fetched := map[], map[], false, [];
    }

    method SetReadHostname(on: bool)
      modifies this`readHostname
      ensures readHostname == on
    {
      readHostname := on;
    }

    method RotateHostCache()
      modifies this`hostCache, this`hostCachePrev
      ensures Abs() == Cache(map[], old(hostCache))
    {
      hostCachePrev := hostCache;
      hostCache := map[];
    }

    /** An entry of the older generation is promoted, so that it survives the next rotation. */
    method ReadHostnameFor(id: ProcessId, host: Hosts) returns (name: string)
      modifies this`hostCache, this`fetched
      ensures var l := Lookup(old(Abs()), id, host);
              name == l.name && Abs() == l.cache && fetched == old(fetched) + if l.read then [id] else []
    {
      hide Identity.Decimal, Identity.SignedDecimal;
      var key := id.Key();
      if key in hostCache {
        return hostCache[key];
      }
      if key in hostCachePrev {
        name := hostCachePrev[key];
        hostCache := hostCache[key := name];
        return;
      }
      name := host(id);
      fetched := fetched + [id];
      hostCache := hostCache[key := name];
    }

    /** The instances a directory scan found, as far as it got; hostnames are "" when they are not asked for. */
    method List(ids: seq<ProcessId>, host: Hosts) returns (names: seq<string>)
      modifies this`hostCache, this`hostCachePrev, this`fetched
      ensures readHostname ==>
                var r := ListOf(old(Abs()), ids, host);
                names == r.names && Abs() == r.cache && fetched == old(fetched) + r.fetched
      ensures !readHostname ==>
                Abs() == old(Abs()) && fetched == old(fetched) && |names| == |ids| && forall k :: 0 <= k < |ids| ==> names[k] == ""
    {
      hide Lookup;
      if readHostname {
        RotateHostCache();
      }
      ghost var start := Abs();
      names := [];
      for i := 0 to |ids|
        invariant |names| == i
        invariant readHostname ==>
                    var r := ScanFrom(start, ids[..i], host);
                    names == r.names && Abs() == r.cache && fetched == old(fetched) + r.fetched
        invariant !readHostname ==> Abs() == old(Abs()) && fetched == old(fetched) && forall k :: 0 <= k < i ==> names[k] == ""
      {
        assert ids[..i + 1][..i] == ids[..i];
        if readHostname {
          var name := ReadHostnameFor(ids[i], host);
          names := names + [name];
        } else {
          names := names + [""];
        }
      }
      assert ids[..|ids|] == ids;
    }
  }
}
