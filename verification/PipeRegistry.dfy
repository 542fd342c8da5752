/**
 The table of in-process MCP pipe servers and its lock regions.

 A descriptor is a token for one end of one `libc::pipe` call, so tokens are never reused. The two
 nested maps of the source are one map on (agent, name). `closes` records every `libc::close`, direct
 or through the drop of an owned descriptor.
 */
module PipeRegistry {
  import opened Prelude

  type Fd = nat

  /** The two Rust-side ends of a registration, once they have an owner outside the table's slots. */
  datatype Ends = Ends(read: Fd, write: Fd) {
    function Both(): multiset<Fd> { multiset{read, write} }
  }

  datatype Key = Key(agent: nat, name: string)

  /** `None` in a slot is the -1 of the source. */
  datatype Server = Server(read: Option<Fd>, write: Option<Fd>, connected: Option<Ends>)

  datatype Table = Table(regs: map<Key, Server>, closes: multiset<Fd>)

  // ----- dropping a server -----

  function One(slot: Option<Fd>): multiset<Fd> { if slot.Some? then multiset{slot.value} else multiset{} }

  /** What the drop of a server closes: its slots if it never connected, otherwise what the connection owns. */
  function DropCloses(server: Server): multiset<Fd> {
    if server.connected.None? then One(server.read) + One(server.write) else server.connected.value.Both()
  }

  // ----- lock regions -----

  function Inserted(t: Table, key: Key, ends: Ends): Table {
    Table(t.regs[key := Server(Some(ends.read), Some(ends.write), None)],
          t.closes + if key in t.regs then DropCloses(t.regs[key]) else multiset{})
  }

  function Removed(t: Table, key: Key): Table {
    Table(t.regs - {key}, t.closes + if key in t.regs then DropCloses(t.regs[key]) else multiset{})
  }

  /** The servers of an agent are dropped in the iteration order of the map. */
  function RemovedAll(t: Table, order: seq<Key>): Table {
    if order == [] then t else Removed(RemovedAll(t, order[..|order| - 1]), order[|order| - 1])
  }

  ghost predicate IsOrder(regs: map<Key, Server>, agent: nat, order: seq<Key>) {
    && (forall i, j :: 0 <= i < j < |order| ==> order[i] != order[j])
    && (forall k :: k in order <==> k in regs && k.agent == agent)
  }

  predicate Takable(server: Server) { server.connected.None? && server.read.Some? && server.write.Some? }

  function Emptied(server: Server): Server {
    if Takable(server) then server.(read := None, write := None) else server
  }

  /** Phase 1 of `collect_connected_mcp_peers`: the table afterwards, and what was taken. */
  function TakenRegs(regs: map<Key, Server>, agent: nat): map<Key, Server> {
    map k | k in regs :: if k.agent == agent then Emptied(regs[k]) else regs[k]
  }

  function TakenEnds(regs: map<Key, Server>, agent: nat): map<string, Ends> {
    map k | k in regs && k.agent == agent && Takable(regs[k]) :: k.name := Ends(regs[k].read.value, regs[k].write.value)
  }

  /** Phase 3: store a finished connection, or drop it when the registration is gone. */
  function Stored(t: Table, key: Key, ends: Ends): Table {
    if key in t.regs then
      Table(t.regs[key := t.regs[key].(connected := Some(ends))],
            t.closes + if t.regs[key].connected.Some? then t.regs[key].connected.value.Both() else multiset{})
    else t.(closes := t.closes + ends.Both())
  }

  class Registry {
    var regs: map<Key, Server>
    var closes: multiset<Fd>

    ghost function State(): Table
      reads this
    {
      Table(regs, closes)
    }

    method Close(fd: Fd)
      modifies this`closes
      ensures closes == old(closes) + multiset{fd}
    {
      closes := closes + multiset{fd};
    }

    /** Dropping what owns both ends. */
    method CloseBoth(ends: Ends)
      modifies this`closes
      ensures closes == old(closes) + ends.Both()
    {
      Close(ends.read);
      Close(ends.write);
    }

    /** `Drop` */
    method Drop(server: Server)
      modifies this`closes
      ensures closes == old(closes) + DropCloses(server)
    {
      if server.connected.None? {
        if server.read.Some? {
          Close(server.read.value);
        }
        if server.write.Some? {
          Close(server.write.value);
        }
      } else {
        // the running service owns the descriptors
        CloseBoth(server.connected.value);
      }
    }

    /** The check before a registration: a name already registered costs the new pair, and nothing else changes. */
    method RefuseDuplicate(key: Key, ends: Ends) returns (refused: bool)
      modifies this`closes
      ensures refused == (key in regs)
      ensures closes == if refused then old(closes) + multiset{ends.read} + multiset{ends.write} else old(closes)
    {
      refused := key in regs;
      if refused {
        Close(ends.write);
        Close(ends.read);
      }
    }

    method Insert(key: Key, ends: Ends)
      modifies this
      ensures State() == Inserted(old(State()), key, ends)
    {
      if key in regs {
        Drop(regs[key]);
      }
      regs := regs[key := Server(Some(ends.read), Some(ends.write), None)];
    }

    /** The locked part of `collect_connected_mcp_peers`; servers are visited in any order. */
    method TakePending(agent: nat) returns (pending: map<string, Ends>, peers: set<string>)
      modifies this`regs
      ensures regs == TakenRegs(old(regs), agent) && pending == TakenEnds(old(regs), agent)
      ensures forall name :: name in peers <==>
                Key(agent, name) in old(regs) && old(regs)[Key(agent, name)].connected.Some?
    {
      ghost var was := regs;
      pending, peers := map[], {};
      var left := set k | k in regs && k.agent == agent;
      while left != {}
        invariant TakenSoFar(was, agent, left, regs, pending, peers)
        decreases |left|
      {
        hide TakenSoFar;
        var key :| key in left;
        TakeOneMore(was, agent, left, key, regs, pending, peers);
        var server := regs[key];
        if server.connected.Some? {
          peers := peers + {key.name};
        } else if server.read.Some? && server.write.Some? {
          pending := pending[key.name := Ends(server.read.value, server.write.value)];
          regs := regs[key := server.(read := None, write := None)];
        }
        left := left - {key};
      }
      assert was - {} == was;
    }

    method Store(key: Key, ends: Ends)
      modifies this
      ensures State() == Stored(old(State()), key, ends)
    {
      if key in regs {
        var server := regs[key];
        regs := regs[key := server.(connected := Some(ends))];
        if server.connected.Some? {
          CloseBoth(server.connected.value);
        }
      } else {
        CloseBoth(ends);
      }
    }

    /** `unregister_inproc_mcp_inner` */
    method Unregister(key: Key) returns (found: bool)
      modifies this
      ensures State() == Removed(old(State()), key) && found == (key in old(regs))
    {
      found := key in regs;
      if found {
        Drop(regs[key]);
      }
      regs := regs - {key};
    }

    /** `unregister_all_mcp_for_agent` */
    method UnregisterAll(agent: nat) returns (ghost order: seq<Key>)
      modifies this
      ensures IsOrder(old(regs), agent, order) && State() == RemovedAll(old(State()), order)
      ensures regs == map k | k in old(regs) && k.agent != agent :: old(regs)[k]
    {
      order := [];
      ghost var was := regs;
      assert State() == RemovedAll(State(), order);
      hide RemovedAll, IsOrder;
      var left := set k | k in regs && k.agent == agent;
      assert RemovedSoFar(was, agent, left, regs, order);
      hide RemovedSoFar;
      while left != {}
        invariant RemovedSoFar(was, agent, left, regs, order)
        invariant State() == RemovedAll(old(State()), order)
        decreases |left|
      {
        var key :| key in left;
        RemoveOneMore(old(State()), agent, left, State(), order, key);
        Drop(regs[key]);
        regs := regs - {key};
        left := left - {key};
        order := order + [key];
      }
      AllRemoved(was, agent, regs, order);
    }
  }

  /** Phase 1 with the servers in `left` still to be visited. */
  ghost predicate TakenSoFar(was: map<Key, Server>, agent: nat, left: set<Key>,
                             regs: map<Key, Server>, pending: map<string, Ends>, peers: set<string>) {
    && left <= was.Keys && (forall k :: k in left ==> k.agent == agent)
    && regs.Keys == was.Keys
    && (forall k :: k in was ==> regs[k] == if k.agent == agent && k !in left then Emptied(was[k]) else was[k])
    && pending == TakenEnds(was - left, agent)
    && (forall name :: name in peers <==>
          Key(agent, name) in was && Key(agent, name) !in left && was[Key(agent, name)].connected.Some?)
  }

  lemma TakeOneMore(was: map<Key, Server>, agent: nat, left: set<Key>, key: Key,
                    regs: map<Key, Server>, pending: map<string, Ends>, peers: set<string>)
    requires key in left && TakenSoFar(was, agent, left, regs, pending, peers)
    ensures key.agent == agent && key in regs
    ensures TakenSoFar(was, agent, left - {key},
              if Takable(regs[key]) then regs[key := regs[key].(read := None, write := None)] else regs,
              if Takable(regs[key])
                  then pending[key.name := Ends(regs[key].read.value, regs[key].write.value)] else pending,
              if regs[key].connected.Some? then peers + {key.name} else peers)
  {
    TakenEndsOneMore(was, left, key);
  }

  lemma TakenEndsOneMore(was: map<Key, Server>, left: set<Key>, key: Key)
    requires key in left && left <= was.Keys
    requires forall k :: k in left ==> k.agent == key.agent
    ensures TakenEnds(was - (left - {key}), key.agent)
            == if Takable(was[key])
                then TakenEnds(was - left, key.agent)[key.name := Ends(was[key].read.value, was[key].write.value)]
               else TakenEnds(was - left, key.agent)
  {
    assert was - (left - {key}) == (was - left)[key := was[key]];
  }

  /** The drop of an agent's servers with those in `left` still to be dropped. */
  ghost predicate RemovedSoFar(was: map<Key, Server>, agent: nat, left: set<Key>, regs: map<Key, Server>,
      order: seq<Key>) {
    && (forall k :: k in left <==> k in regs && k.agent == agent)
    && regs.Keys <= was.Keys && (forall k :: k in was ==> (k in regs <==> k !in order))
    && (forall k :: k in regs ==> regs[k] == was[k])
    && (forall k :: k in order ==> k in was && k.agent == agent)
    && (forall i, j :: 0 <= i < j < |order| ==> order[i] != order[j])
  }

  lemma AllRemoved(was: map<Key, Server>, agent: nat, regs: map<Key, Server>, order: seq<Key>)
    requires RemovedSoFar(was, agent, {}, regs, order)
    ensures IsOrder(was, agent, order) && regs == map k | k in was && k.agent != agent :: was[k]
  {
  }

  lemma RemoveOneMore(t: Table, agent: nat, left: set<Key>, now: Table, order: seq<Key>, key: Key)
    requires key in left && RemovedSoFar(t.regs, agent, left, now.regs, order) && now == RemovedAll(t, order)
    ensures key in now.regs && RemovedSoFar(t.regs, agent, left - {key}, now.regs - {key}, order + [key])
    ensures Removed(now, key) == RemovedAll(t, order + [key])
  {
    SnocFront(order, key);
  }

  /**
   What a collection takes, word for word: just the servers of its agent that are not connected and hold both
   descriptors lose them, and it has exactly those pairs under their names.
   */
  lemma TakenExact(regs: map<Key, Server>, agent: nat, key: Key)
    ensures TakenRegs(regs, agent).Keys == regs.Keys
    ensures key in regs ==>
              TakenRegs(regs, agent)[key] == if key.agent == agent && Waits(regs[key]) then Server(None, None, None)
                                             else regs[key]
    ensures key.agent == agent ==>
              && (key.name in TakenEnds(regs, agent) <==> key in regs && Waits(regs[key]))
              && (key.name in TakenEnds(regs, agent) ==>
                    TakenEnds(regs, agent)[key.name] == Ends(regs[key].read.value, regs[key].write.value))
  {
    if key.agent == agent && key.name in TakenEnds(regs, agent) {
      var k :| k in regs && k.agent == agent && Takable(regs[k]) && k.name == key.name;
      assert k == key;
    }
  }

  /** Registered, not connected yet, and with both its descriptors. */
  predicate Waits(server: Server) { server.connected == None && server.read != None && server.write != None }
}
