/** Routing between cluster nodes: ClusterService keeps one TCP client per
    remote process, queues outgoing and incoming TCP messages for its two
    pipelines, routes messages by process name, by host and port, by
    process type or to every connection, and follows the directory's
    RegisterProcess / RemoveProcess events. */
module Cluster {
  import opened Bytes
  import opened Wrappers

  /** A remote process as the directory describes it. */
  datatype ProcessData = ProcessData(name: string, kind: string, address: string, tcpPort: u16)

  /** A process record. The service compares processes by object identity
      (shared pointers compare addresses), never by their fields: two
      Process objects with equal data are two processes. */
  class Process {
    const data: ProcessData

    constructor (data: ProcessData)
      ensures this.data == data
    {
      this.data := data;
    }
  }

  /** An open tcp_client. Building one and sending through it are outside
      the model; the handle only tells clients apart. */
  datatype Client = Client(handle: nat)

  /** The routing tag a TCP message carries; its values are defined elsewhere. */
  datatype Destination = Destination(tag: nat)

  datatype ClusterPair = ClusterPair(process: Process, client: Client)

  /** A message queued for the outgoing pipeline. */
  datatype TcpMessage = TcpMessage(connection: Client, payload: seq<byte>, destination: Destination)

  /** One direct Send on a client, as the broadcasts do. */
  datatype Transmission = Transmission(client: Client, payload: seq<byte>)

  /** The filters the two pipelines are built from. */
  datatype Stage = OutgoingStart | SendPacket | ReceivePacket | PacketEvent

  datatype Direction = Incoming | Outgoing

  /** One budgeted pipeline run: how many queued entries it took. */
  datatype PipelineRun = PipelineRun(direction: Direction, budget: nat, taken: nat)

  /** Entries each pipeline may take per Update. */
  const UpdateBudget: nat := 100

  // ------------------------------------------------ the routing table as a value

  predicate HasProcess(pairs: seq<ClusterPair>, p: Process)
  {
    exists i :: 0 <= i < |pairs| && pairs[i].process == p
  }

  /** At most one entry per process identity. */
  predicate UniqueProcesses(pairs: seq<ClusterPair>)
  {
    forall i, j :: 0 <= i < j < |pairs| ==> pairs[i].process != pairs[j].process
  }

  /** No entry for a process listening on this node's own port. */
  predicate NoSelfConnection(pairs: seq<ClusterPair>, port: u16)
  {
    forall i :: 0 <= i < |pairs| ==> pairs[i].process.data.tcpPort != port
  }

  /** The entry is for a process at that address and port. */
  predicate AtEndpoint(pair: ClusterPair, host: string, tcpPort: u16)
  {
    pair.process.data.address == host && pair.process.data.tcpPort == tcpPort
  }

  /** How many entries `p` has. */
  function Occurrences(pairs: seq<ClusterPair>, p: Process): nat
  {
    if pairs == [] then 0
    else Occurrences(pairs[..|pairs| - 1], p) + if pairs[|pairs| - 1].process == p then 1 else 0
  }

  /** The table after Connect(client, p) on a node listening on `port`;
      `client` is None for a null client. */
  function AfterConnect(pairs: seq<ClusterPair>, port: u16, p: Process, client: Option<Client>): seq<ClusterPair>
  {
    if !HasProcess(pairs, p) && p.data.tcpPort != port && client.Some? then pairs + [ClusterPair(p, client.value)]
    else pairs
  }

  /** The position of `p`'s first entry. */
  function IndexOf(pairs: seq<ClusterPair>, p: Process): (i: nat)
    requires HasProcess(pairs, p)
    ensures i < |pairs| && pairs[i].process == p
    ensures forall j :: 0 <= j < i ==> pairs[j].process != p
  {
    if pairs[0].process == p then 0
    else
      assert HasProcess(pairs[1..], p) by {
        var k :| 0 <= k < |pairs| && pairs[k].process == p;
        assert pairs[1..][k - 1].process == p;
      }
      1 + IndexOf(pairs[1..], p)
  }

  /** The table after Disconnect(p). */
  function AfterDisconnect(pairs: seq<ClusterPair>, p: Process): seq<ClusterPair>
  {
    if HasProcess(pairs, p) then
      var i := IndexOf(pairs, p);
      pairs[..i] + pairs[i + 1..]
    else pairs
  }

  /** The clients of the entries whose process has type `kind`, in table order. */
  function Recipients(pairs: seq<ClusterPair>, kind: string): seq<Client>
  {
    if pairs == [] then []
    else
      var last := pairs[|pairs| - 1];
      Recipients(pairs[..|pairs| - 1], kind) + if last.process.data.kind == kind then [last.client] else []
  }

  /** The clients of all entries, in table order. */
  function AllClients(pairs: seq<ClusterPair>): seq<Client>
  {
    seq(|pairs|, i requires 0 <= i < |pairs| => pairs[i].client)
  }

  function Transmissions(clients: seq<Client>, payload: seq<byte>): seq<Transmission>
  {
    seq(|clients|, i requires 0 <= i < |clients| => Transmission(clients[i], payload))
  }

  /** How many of `queued` entries a run with `budget` takes: all of them
      or the budget, whichever is fewer. */
  function BatchSize(queued: nat, budget: nat): (k: nat)
    ensures k <= queued && k <= budget && (k == queued || k == budget)
  {
    if queued < budget then queued else budget
  }

  /** The table without the entries describing the process `data`. */
  function WithoutData(pairs: seq<ClusterPair>, data: ProcessData): seq<ClusterPair>
  {
    if pairs == [] then []
    else
      var last := pairs[|pairs| - 1];
      WithoutData(pairs[..|pairs| - 1], data) + if last.process.data == data then [] else [last]
  }

  /** No two entries describe the same process. */
  predicate UniqueData(pairs: seq<ClusterPair>)
  {
    forall i, j :: 0 <= i < j < |pairs| ==> pairs[i].process.data != pairs[j].process.data
  }

  // ------------------------------------------------ what the table operations promise

  lemma {:induction false} OccurrencesZero(pairs: seq<ClusterPair>, p: Process)
    ensures Occurrences(pairs, p) == 0 <==> !HasProcess(pairs, p)
  {
    if pairs != [] {
      var init := pairs[..|pairs| - 1];
      OccurrencesZero(init, p);
      if HasProcess(init, p) {
        var k :| 0 <= k < |init| && init[k].process == p;
        assert pairs[k].process == p;
      }
      if HasProcess(pairs, p) && pairs[|pairs| - 1].process != p {
        var k :| 0 <= k < |pairs| && pairs[k].process == p;
        assert init[k].process == p;
      }
    }
  }

  lemma {:induction false} UniqueAtMostOnce(pairs: seq<ClusterPair>, p: Process)
    requires UniqueProcesses(pairs)
    ensures Occurrences(pairs, p) <= 1
  {
    if pairs != [] {
      var init := pairs[..|pairs| - 1];
      assert UniqueProcesses(init);
      UniqueAtMostOnce(init, p);
      if pairs[|pairs| - 1].process == p {
        forall k | 0 <= k < |init| ensures init[k].process != p {
          assert init[k] == pairs[k];
        }
        OccurrencesZero(init, p);
      }
    }
  }

  /** Connect adds an entry exactly when the process is not yet in the table,
      is not on this node's own port and comes with a client, and it adds
      that one entry at the end; otherwise nothing changes. The table keeps
      both invariants. */
  lemma ConnectGuarded(pairs: seq<ClusterPair>, port: u16, p: Process, client: Option<Client>)
    requires UniqueProcesses(pairs) && NoSelfConnection(pairs, port)
    ensures var after := AfterConnect(pairs, port, p, client);
      && (after != pairs <==> !HasProcess(pairs, p) && p.data.tcpPort != port && client.Some?)
      && (after != pairs ==> after == pairs + [ClusterPair(p, client.value)])
      && UniqueProcesses(after) && NoSelfConnection(after, port)
  {
    var after := AfterConnect(pairs, port, p, client);
    if !HasProcess(pairs, p) && p.data.tcpPort != port && client.Some? {
      assert |after| != |pairs|;
    }
  }

  /** Connecting the same process twice leaves it at most one entry, and
      exactly one as soon as it was already there or either call was allowed
      to add it. */
  lemma ConnectTwiceOneEntry(pairs: seq<ClusterPair>, port: u16, p: Process, first: Option<Client>, second: Option<Client>)
    requires UniqueProcesses(pairs) && NoSelfConnection(pairs, port)
    ensures Occurrences(AfterConnect(AfterConnect(pairs, port, p, first), port, p, second), p)
         == if HasProcess(pairs, p) || (p.data.tcpPort != port && (first.Some? || second.Some?)) then 1 else 0
  {
    var once := AfterConnect(pairs, port, p, first);
    var twice := AfterConnect(once, port, p, second);
    ConnectGuarded(pairs, port, p, first);
    ConnectGuarded(once, port, p, second);
    UniqueAtMostOnce(twice, p);
    OccurrencesZero(pairs, p);
    OccurrencesZero(once, p);
    OccurrencesZero(twice, p);
    if once != pairs {
      assert once[|once| - 1].process == p;
    } else if twice != once {
      assert twice[|twice| - 1].process == p;
    }
  }

  /** Disconnect removes exactly the entry of `p`, keeping the others in
      order, and does nothing when `p` has no entry. */
  lemma DisconnectRemovesExactly(pairs: seq<ClusterPair>, port: u16, p: Process)
    requires UniqueProcesses(pairs) && NoSelfConnection(pairs, port)
    ensures var after := AfterDisconnect(pairs, p);
      && (!HasProcess(pairs, p) ==> after == pairs)
      && (HasProcess(pairs, p) ==> |after| == |pairs| - 1)
      && !HasProcess(after, p)
      && (forall x :: x in pairs && x.process != p ==> x in after)
      && (forall x :: x in after ==> x in pairs)
      && UniqueProcesses(after) && NoSelfConnection(after, port)
  {
    if HasProcess(pairs, p) {
      var i := IndexOf(pairs, p);
      var after := pairs[..i] + pairs[i + 1..];
      RemoveAt(pairs, i);
      forall x | x in pairs && x.process != p ensures x in after {
        var k :| 0 <= k < |pairs| && pairs[k] == x;
        if k < i { assert after[k] == x; } else { assert after[k - 1] == x; }
      }
      forall k | 0 <= k < |after| ensures after[k].process != p {
        assert after[k] == pairs[Skip(k, i)];
      }
      forall a, b | 0 <= a < b < |after| ensures after[a].process != after[b].process {
        assert after[a] == pairs[Skip(a, i)] && after[b] == pairs[Skip(b, i)];
      }
    }
  }

  /** The position in the original table of position `k` once entry `i` is gone. */
  function Skip(k: nat, i: nat): (j: nat)
  {
    if k < i then k else k + 1
  }

  lemma RemoveAt(pairs: seq<ClusterPair>, i: nat)
    requires i < |pairs|
    ensures var after := pairs[..i] + pairs[i + 1..];
      && |after| == |pairs| - 1
      && forall k :: 0 <= k < |after| ==> Skip(k, i) < |pairs| && after[k] == pairs[Skip(k, i)]
  {
  }

  /** A broadcast by type reaches exactly the clients of entries of that type. */
  lemma {:induction false} RecipientsExactly(pairs: seq<ClusterPair>, kind: string, c: Client)
    ensures c in Recipients(pairs, kind) <==>
            exists i :: 0 <= i < |pairs| && pairs[i].process.data.kind == kind && pairs[i].client == c
  {
    if pairs != [] {
      var init := pairs[..|pairs| - 1];
      RecipientsExactly(init, kind, c);
      if exists i :: 0 <= i < |init| && init[i].process.data.kind == kind && init[i].client == c {
        var i :| 0 <= i < |init| && init[i].process.data.kind == kind && init[i].client == c;
        assert pairs[i] == init[i];
      }
      if exists i :: 0 <= i < |pairs| && pairs[i].process.data.kind == kind && pairs[i].client == c {
        var i :| 0 <= i < |pairs| && pairs[i].process.data.kind == kind && pairs[i].client == c;
        if i < |init| { assert init[i] == pairs[i]; }
      }
    }
  }

  /** A broadcast to all reaches exactly the clients of the table's entries,
      one transmission per entry. */
  lemma AllRecipientsExactly(pairs: seq<ClusterPair>, c: Client)
    ensures |AllClients(pairs)| == |pairs|
    ensures c in AllClients(pairs) <==> exists i :: 0 <= i < |pairs| && pairs[i].client == c
  {
    if c in AllClients(pairs) {
      var i :| 0 <= i < |pairs| && AllClients(pairs)[i] == c;
      assert pairs[i].client == c;
    }
    if exists i :: 0 <= i < |pairs| && pairs[i].client == c {
      var i :| 0 <= i < |pairs| && pairs[i].client == c;
      assert AllClients(pairs)[i] == c;
    }
  }

  /** Removing by data drops exactly the entries describing that process,
      keeps the other entries, and keeps the table's invariants. */
  lemma WithoutDataExactly(pairs: seq<ClusterPair>, port: u16, data: ProcessData)
    ensures var after := WithoutData(pairs, data);
      && (forall x :: x in after <==> x in pairs && x.process.data != data)
      && (UniqueProcesses(pairs) ==> UniqueProcesses(after))
      && (NoSelfConnection(pairs, port) ==> NoSelfConnection(after, port))
      && (UniqueData(pairs) ==> UniqueData(after))
  {
    var after := WithoutData(pairs, data);
    forall x ensures x in after <==> x in pairs && x.process.data != data {
      WithoutDataMember(pairs, data, x);
    }
    if UniqueProcesses(pairs) {
      WithoutDataUnique(pairs, data);
    }
    if UniqueData(pairs) {
      WithoutDataUniqueData(pairs, data);
    }
    if NoSelfConnection(pairs, port) {
      forall i | 0 <= i < |after| ensures after[i].process.data.tcpPort != port {
        assert after[i] in after;
        WithoutDataMember(pairs, data, after[i]);
        var k :| 0 <= k < |pairs| && pairs[k] == after[i];
      }
    }
  }

  lemma {:induction false} WithoutDataMember(pairs: seq<ClusterPair>, data: ProcessData, x: ClusterPair)
    ensures x in WithoutData(pairs, data) <==> x in pairs && x.process.data != data
  {
    if pairs != [] {
      var init := pairs[..|pairs| - 1];
      WithoutDataMember(init, data, x);
      assert pairs == init + [pairs[|pairs| - 1]];
    }
  }

  lemma {:induction false} WithoutDataUnique(pairs: seq<ClusterPair>, data: ProcessData)
    requires UniqueProcesses(pairs)
    ensures UniqueProcesses(WithoutData(pairs, data))
  {
    if pairs != [] {
      var init := pairs[..|pairs| - 1];
      var last := pairs[|pairs| - 1];
      var rest := WithoutData(init, data);
      WithoutDataUnique(init, data);
      if last.process.data != data {
        forall k | 0 <= k < |rest| ensures rest[k].process != last.process {
          assert rest[k] in rest;
          WithoutDataMember(init, data, rest[k]);
          var m :| 0 <= m < |init| && init[m] == rest[k];
          assert pairs[m] == rest[k];
        }
      }
    }
  }

  lemma {:induction false} WithoutDataUniqueData(pairs: seq<ClusterPair>, data: ProcessData)
    requires UniqueData(pairs)
    ensures UniqueData(WithoutData(pairs, data))
  {
    if pairs != [] {
      var init := pairs[..|pairs| - 1];
      var last := pairs[|pairs| - 1];
      var rest := WithoutData(init, data);
      WithoutDataUniqueData(init, data);
      if last.process.data != data {
        forall k | 0 <= k < |rest| ensures rest[k].process.data != last.process.data {
          assert rest[k] in rest;
          WithoutDataMember(init, data, rest[k]);
          var m :| 0 <= m < |init| && init[m] == rest[k];
          assert pairs[m] == rest[k];
        }
      }
    }
  }

  // ------------------------------------------------------------- the service

  class ClusterService {
    /** This node's own listening port. */
    const port: u16

    /** tcp_client_map_, in iteration order. */
    var clients: seq<ClusterPair>
    /** Buffers received by the TCP host, waiting for the incoming pipeline. */
    var incoming: seq<seq<byte>>
    /** Messages waiting for the outgoing pipeline. */
    var outgoing: seq<TcpMessage>
    var incomingPipeline: seq<Stage>
    var outgoingPipeline: seq<Stage>
    /** The pipeline runs so far, in order. */
    var runs: seq<PipelineRun>
    /** The direct sends made by the broadcasts, in order. */
    var transmitted: seq<Transmission>

    ghost predicate Valid()
      reads this
    {
      UniqueProcesses(clients) && NoSelfConnection(clients, port)
    }

    /** The pipelines get their filters in order: outgoing = start, send;
        incoming = receive, event. */
    constructor (port: u16)
      ensures Valid() && this.port == port
      ensures clients == [] && incoming == [] && outgoing == [] && runs == [] && transmitted == []
      ensures outgoingPipeline == [OutgoingStart, SendPacket]
      ensures incomingPipeline == [ReceivePacket, PacketEvent]
    {
      this.port := port;
      clients, incoming, outgoing, runs, transmitted := [], [], [], [], [];
      outgoingPipeline := [OutgoingStart, SendPacket];
      incomingPipeline := [ReceivePacket, PacketEvent];
    }

    /** One tick: the incoming pipeline, then the outgoing one, each taking
        at most UpdateBudget of the oldest queued entries; the rest stay
        queued in order. */
    method Update()
      modifies this`incoming, this`outgoing, this`runs
      ensures var inTaken := BatchSize(|old(incoming)|, UpdateBudget);
              var outTaken := BatchSize(|old(outgoing)|, UpdateBudget);
        && incoming == old(incoming)[inTaken..]
        && outgoing == old(outgoing)[outTaken..]
        && runs == old(runs) + [PipelineRun(Incoming, UpdateBudget, inTaken), PipelineRun(Outgoing, UpdateBudget, outTaken)]
    {
      var inTaken := BatchSize(|incoming|, UpdateBudget);
      incoming := incoming[inTaken..];
      runs := runs + [PipelineRun(Incoming, UpdateBudget, inTaken)];
      var outTaken := BatchSize(|outgoing|, UpdateBudget);
      outgoing := outgoing[outTaken..];
      runs := runs + [PipelineRun(Outgoing, UpdateBudget, outTaken)];
    }

    method Shutdown()
      modifies this`clients, this`incoming, this`outgoing, this`incomingPipeline, this`outgoingPipeline
      ensures Valid()
      ensures clients == [] && incoming == [] && outgoing == []
      ensures incomingPipeline == [] && outgoingPipeline == []
    {
      clients := [];
      incoming := [];
      outgoing := [];
      incomingPipeline := [];
      outgoingPipeline := [];
    }

    /** isConnected(name): some entry's process has that name. */
    method IsConnectedName(name: string) returns (connected: bool)
      ensures connected <==> exists i :: 0 <= i < |clients| && clients[i].process.data.name == name
    {
      var i := 0;
      while i < |clients| && clients[i].process.data.name != name
        invariant 0 <= i <= |clients|
        invariant forall k :: 0 <= k < i ==> clients[k].process.data.name != name
      {
        i := i + 1;
      }
      connected := i < |clients|;
    }

    /** isConnected(process): the very process object has an entry. */
    method IsConnected(process: Process) returns (connected: bool)
      ensures connected == HasProcess(clients, process)
    {
      var i := 0;
      while i < |clients| && clients[i].process != process
        invariant 0 <= i <= |clients|
        invariant forall k :: 0 <= k < i ==> clients[k].process != process
      {
        i := i + 1;
      }
      connected := i < |clients|;
    }

    /** getConnection(name): the client of the first entry whose process has
        that name, or null when there is none. */
    method GetConnectionByName(name: string) returns (connection: Option<Client>)
      ensures connection.None? <==> forall i :: 0 <= i < |clients| ==> clients[i].process.data.name != name
      ensures connection.Some? ==>
        exists i :: 0 <= i < |clients| && clients[i].process.data.name == name && clients[i].client == connection.value
                    && forall k :: 0 <= k < i ==> clients[k].process.data.name != name
    {
      var i := 0;
      while i < |clients| && clients[i].process.data.name != name
        invariant 0 <= i <= |clients|
        invariant forall k :: 0 <= k < i ==> clients[k].process.data.name != name
      {
        i := i + 1;
      }
      connection := if i < |clients| then Some(clients[i].client) else None;
    }

    /** getConnection(host, port): the client of the first entry that matches
        both address and port, or null when there is none. */
    method GetConnectionByEndpoint(host: string, tcpPort: u16) returns (connection: Option<Client>)
      ensures connection.None? <==>
        forall i :: 0 <= i < |clients| ==> !AtEndpoint(clients[i], host, tcpPort)
      ensures connection.Some? ==>
        exists i :: 0 <= i < |clients| && AtEndpoint(clients[i], host, tcpPort) && clients[i].client == connection.value
                    && forall k :: 0 <= k < i ==> !AtEndpoint(clients[k], host, tcpPort)
    {
      var i := 0;
      while i < |clients| && !AtEndpoint(clients[i], host, tcpPort)
        invariant 0 <= i <= |clients|
        invariant forall k :: 0 <= k < i ==> !AtEndpoint(clients[k], host, tcpPort)
      {
        i := i + 1;
      }
      connection := if i < |clients| then Some(clients[i].client) else None;
    }

    /** Connect(client, p): records `client` (None for a null client) for
        `p` unless `p` already has an entry or listens on this node's port. */
    method ConnectClient(client: Option<Client>, process: Process)
      requires Valid()
      modifies this`clients
      ensures Valid()
      ensures clients == AfterConnect(old(clients), port, process, client)
    {
      var connected := IsConnected(process);
      if !connected && process.data.tcpPort != port {
        if client.Some? {
          clients := clients + [ClusterPair(process, client.value)];
        }
      }
      ConnectGuarded(old(clients), port, process, client);
    }

    /** Connect(p): as ConnectClient, with the client the service opens to
        p's address and port; `dialled` is that client, or None when opening
        it throws (the exception is logged and swallowed). */
    method Connect(process: Process, dialled: Option<Client>)
      requires Valid()
      modifies this`clients
      ensures Valid()
      ensures clients == AfterConnect(old(clients), port, process, dialled)
    {
      ConnectClient(dialled, process);
    }

    /** Disconnect(p): erases p's entry when it has one. */
    method Disconnect(process: Process)
      requires Valid()
      modifies this`clients
      ensures Valid()
      ensures clients == AfterDisconnect(old(clients), process)
    {
      DisconnectRemovesExactly(clients, port, process);
      var connected := IsConnected(process);
      if connected {
        var i := 0;
        while clients[i].process != process
          invariant 0 <= i <= IndexOf(clients, process)
          decreases IndexOf(clients, process) - i
        {
          i := i + 1;
        }
        clients := clients[..i] + clients[i + 1..];
      }
    }

    /** sendMessage(name, event, dest): queues the serialized event for the
        first connection of that name; with no such connection nothing is
        queued. */
    method SendMessageToName(name: string, payload: seq<byte>, destination: Destination)
      modifies this`outgoing
      ensures (exists i :: 0 <= i < |clients| && clients[i].process.data.name == name) ==>
        |outgoing| == |old(outgoing)| + 1 && outgoing[..|old(outgoing)|] == old(outgoing)
        && outgoing[|old(outgoing)|].payload == payload && outgoing[|old(outgoing)|].destination == destination
        && exists i :: 0 <= i < |clients| && clients[i].process.data.name == name
                       && clients[i].client == outgoing[|old(outgoing)|].connection
                       && forall k :: 0 <= k < i ==> clients[k].process.data.name != name
      ensures (forall i :: 0 <= i < |clients| ==> clients[i].process.data.name != name) ==> outgoing == old(outgoing)
    {
      var connection := GetConnectionByName(name);
      if connection.Some? {
        outgoing := outgoing + [TcpMessage(connection.value, payload, destination)];
        assert !(forall i :: 0 <= i < |clients| ==> clients[i].process.data.name != name);
      }
    }

    /** sendMessage(host, port, buffer, dest): the same, by address and port. */
    method SendMessageToEndpoint(host: string, tcpPort: u16, payload: seq<byte>, destination: Destination)
      modifies this`outgoing
      ensures (exists i :: 0 <= i < |clients| && AtEndpoint(clients[i], host, tcpPort)) ==>
        |outgoing| == |old(outgoing)| + 1 && outgoing[..|old(outgoing)|] == old(outgoing)
        && outgoing[|old(outgoing)|].payload == payload && outgoing[|old(outgoing)|].destination == destination
        && exists i :: 0 <= i < |clients| && AtEndpoint(clients[i], host, tcpPort)
                       && clients[i].client == outgoing[|old(outgoing)|].connection
                       && forall k :: 0 <= k < i ==> !AtEndpoint(clients[k], host, tcpPort)
      ensures (forall i :: 0 <= i < |clients| ==> !AtEndpoint(clients[i], host, tcpPort)) ==>
        outgoing == old(outgoing)
    {
      var connection := GetConnectionByEndpoint(host, tcpPort);
      if connection.Some? {
        outgoing := outgoing + [TcpMessage(connection.value, payload, destination)];
        assert !(forall i :: 0 <= i < |clients| ==> !AtEndpoint(clients[i], host, tcpPort));
      }
    }

    /** sendMessageByType_: a direct send to each connection whose process
        has type `kind`, in table order. */
    method SendMessageByType(kind: string, payload: seq<byte>)
      modifies this`transmitted
      ensures transmitted == old(transmitted) + Transmissions(Recipients(clients, kind), payload)
    {
      var i := 0;
      while i < |clients|
        invariant 0 <= i <= |clients|
        invariant transmitted == old(transmitted) + Transmissions(Recipients(clients[..i], kind), payload)
      {
        assert clients[..i + 1][..i] == clients[..i];
        if clients[i].process.data.kind == kind {
          transmitted := transmitted + [Transmission(clients[i].client, payload)];
        }
        i := i + 1;
      }
      assert clients[..i] == clients;
    }

    /** sendMessageToAll_: a direct send to every connection, in table order. */
    method SendMessageToAll(payload: seq<byte>)
      modifies this`transmitted
      ensures transmitted == old(transmitted) + Transmissions(AllClients(clients), payload)
    {
      var i := 0;
      while i < |clients|
        invariant 0 <= i <= |clients|
        invariant transmitted == old(transmitted) + Transmissions(AllClients(clients[..i]), payload)
      {
        transmitted := transmitted + [Transmission(clients[i].client, payload)];
        i := i + 1;
      }
      assert clients[..i] == clients;
    }

    /** The RegisterProcess listener as written: the event's data is wrapped
        in a new Process object, and that object is connected. Since no
        entry can be that new object, every event for a process on another
        port adds an entry, even for a process registered before. */
    method OnRegisterProcessAsWritten(data: ProcessData, dialled: Option<Client>) returns (process: Process)
      requires Valid()
      modifies this`clients
      ensures Valid() && fresh(process) && process.data == data
      ensures clients == old(clients) + if data.tcpPort != port && dialled.Some? then [ClusterPair(process, dialled.value)] else []
    {
      process := new Process(data);
      Connect(process, dialled);
    }

    /** The RemoveProcess listener as written: the event's data is wrapped in
        a new Process object, which no entry can be, so nothing is ever
        removed. */
    method OnRemoveProcessAsWritten(data: ProcessData)
      requires Valid()
      modifies this`clients
      ensures Valid() && clients == old(clients)
    {
      var process := new Process(data);
      Disconnect(process);
    }

    /** The RegisterProcess listener as intended: a process the table already
        describes is not connected a second time. */
    method OnRegisterProcess(data: ProcessData, dialled: Option<Client>)
      requires Valid()
      modifies this`clients
      ensures Valid()
      ensures (exists i :: 0 <= i < |old(clients)| && old(clients)[i].process.data == data) ==> clients == old(clients)
      ensures (forall i :: 0 <= i < |old(clients)| ==> old(clients)[i].process.data != data) ==>
        |clients| == |old(clients)| + (if data.tcpPort != port && dialled.Some? then 1 else 0)
        && clients[..|old(clients)|] == old(clients)
        && forall i :: |old(clients)| <= i < |clients| ==> fresh(clients[i].process) && clients[i].process.data == data
      ensures |clients| == |old(clients)| + 1 ==> dialled.Some? && clients[|old(clients)|].client == dialled.value
      ensures UniqueData(old(clients)) ==> UniqueData(clients)
    {
      var i := 0;
      while i < |clients| && clients[i].process.data != data
        invariant 0 <= i <= |clients|
        invariant forall k :: 0 <= k < i ==> clients[k].process.data != data
      {
        i := i + 1;
      }
      if i == |clients| {
        var process := new Process(data);
        Connect(process, dialled);
      }
    }

    /** The RemoveProcess listener as intended: every entry describing the
        removed process is erased. */
    method OnRemoveProcess(data: ProcessData)
      requires Valid()
      modifies this`clients
      ensures Valid()
      ensures clients == WithoutData(old(clients), data)
    {
      WithoutDataExactly(clients, port, data);
      clients := WithoutData(clients, data);
    }

    /** OnTCPHostReceive_: queues the buffer for the incoming pipeline. */
    method OnTcpHostReceive(buffer: seq<byte>)
      modifies this`incoming
      ensures incoming == old(incoming) + [buffer]
    {
      incoming := incoming + [buffer];
    }
  }

  // ------------------------------------------- the directory events, end to end

  /** As written, a process on port 2 registered and then removed on a node
      listening on port 1 keeps its connection. */
  method RegisterThenRemoveAsWritten() returns (remaining: nat)
    ensures remaining == 1
  {
    var service := new ClusterService(1);
    var data := ProcessData("zone", "zone", "127.0.0.1", 2);
    var _ := service.OnRegisterProcessAsWritten(data, Some(Client(0)));
    service.OnRemoveProcessAsWritten(data);
    remaining := |service.clients|;
  }

  /** As written, a process registered twice gets two connections. */
  method RegisterTwiceAsWritten() returns (entries: nat)
    ensures entries == 2
  {
    var service := new ClusterService(1);
    var data := ProcessData("zone", "zone", "127.0.0.1", 2);
    var _ := service.OnRegisterProcessAsWritten(data, Some(Client(0)));
    var _ := service.OnRegisterProcessAsWritten(data, Some(Client(1)));
    entries := |service.clients|;
  }

  /** As intended, registering then removing leaves no connection. */
  method RegisterThenRemove() returns (remaining: nat)
    ensures remaining == 0
  {
    var service := new ClusterService(1);
    var data := ProcessData("zone", "zone", "127.0.0.1", 2);
    service.OnRegisterProcess(data, Some(Client(0)));
    service.OnRemoveProcess(data);
    WithoutDataExactly(service.clients, 1, data);
    remaining := |service.clients|;
  }

  /** As intended, registering twice leaves one connection. */
  method RegisterTwice() returns (entries: nat)
    ensures entries == 1
  {
    var service := new ClusterService(1);
    var data := ProcessData("zone", "zone", "127.0.0.1", 2);
    service.OnRegisterProcess(data, Some(Client(0)));
    assert service.clients[0].process.data == data;
    service.OnRegisterProcess(data, Some(Client(1)));
    entries := |service.clients|;
  }
}
