/** The sequential decisions of the metrics collector
    (internal/collector/collector.go): which pool serves a configured server,
    which virtual servers are visited, the commands each visit sends, whether
    its session goes back to the pool or is discarded, and the samples it
    produces. The goroutines of the source run one after the other here, and
    a session's answers come from a script: the outcome of each command it
    executes, in order. */
module Collector {
  import opened Errors
  import opened GoStrings
  import opened Ts3Parser
  import Ts3Client
  import opened Ts3Pool

  /** One configured server. */
  datatype ServerConfig = ServerConfig(name: string, host: string, port: int,
                                       username: string, password: string, protocol: string)

  /** Sessions every pool may hold. */
  const PoolCapacity: int := 5

  /** The `clientlist` command with every option the collector asks for. */
  const ClientListCommand: string := "clientlist -uid -away -voice -times -groups -info -country -ip -badges"

  /** The server-info fields exported as metrics. */
  const ServerMetricNames: seq<string> := [
    "connection_bandwidth_received_last_minute_total",
    "connection_bandwidth_received_last_second_total",
    "connection_bandwidth_sent_last_minute_total",
    "connection_bandwidth_sent_last_second_total",
    "connection_bytes_received_control",
    "connection_bytes_received_keepalive",
    "connection_bytes_received_speech",
    "connection_bytes_received_total",
    "connection_bytes_sent_control",
    "connection_bytes_sent_keepalive",
    "connection_bytes_sent_speech",
    "connection_bytes_sent_total",
    "connection_filetransfer_bandwidth_received",
    "connection_filetransfer_bandwidth_sent",
    "connection_filetransfer_bytes_received_total",
    "connection_filetransfer_bytes_sent_total",
    "connection_packets_received_control",
    "connection_packets_received_keepalive",
    "connection_packets_received_speech",
    "connection_packets_received_total",
    "connection_packets_sent_control",
    "connection_packets_sent_keepalive",
    "connection_packets_sent_speech",
    "connection_packets_sent_total",
    "virtualserver_channelsonline",
    "virtualserver_client_connections",
    "virtualserver_clientsonline",
    "virtualserver_maxclients",
    "virtualserver_month_bytes_downloaded",
    "virtualserver_month_bytes_uploaded",
    "virtualserver_query_client_connections",
    "virtualserver_queryclientsonline",
    "virtualserver_reserved_slots",
    "virtualserver_total_bytes_downloaded",
    "virtualserver_total_bytes_uploaded",
    "virtualserver_total_packetloss_control",
    "virtualserver_total_packetloss_keepalive",
    "virtualserver_total_packetloss_speech",
    "virtualserver_total_packetloss_total",
    "virtualserver_total_ping",
    "virtualserver_uptime"
  ]

  /** The label names of the player-online descriptor. */
  const PlayerLabelNames: seq<string> := [
    "server_name", "virtualserver_name", "player_id", "nickname", "clid", "cid",
    "client_database_id", "client_nickname", "client_type", "client_away",
    "client_away_message", "client_flag_talking", "client_input_muted",
    "client_output_muted", "client_input_hardware", "client_output_hardware",
    "client_talk_power", "client_is_talker", "client_is_priority_speaker",
    "client_is_recording", "client_is_channel_commander",
    "client_unique_identifier", "client_servergroups", "client_channel_group_id",
    "client_channel_group_inherited_channel_id", "client_version", "client_platform",
    "client_idle_time", "client_created", "client_lastconnected",
    "client_country", "connection_client_ip", "client_badges"
  ]

  /** The key of a server's pool: its name, or `host:port` when it has none. */
  function PoolKey(s: ServerConfig): string
  {
    if s.name != "" then s.name else Ts3Client.Address(s.host, s.port)
  }

  /** Unnamed servers whose hosts hold no colon share a pool exactly when
      they have the same host and port. */
  lemma UnnamedPoolKeys(a: ServerConfig, b: ServerConfig)
    requires a.name == "" && b.name == "" && ':' !in a.host && ':' !in b.host
    ensures PoolKey(a) == PoolKey(b) <==> a.host == b.host && a.port == b.port
  {
    CutAtFirst(a.host, IntToString(a.port), ':');
    CutAtFirst(b.host, IntToString(b.port), ':');
    if PoolKey(a) == PoolKey(b) {
      IntToStringInjective(a.port, b.port);
    }
  }

  /** A record field, "" when absent (a Go map read). */
  function Lookup(r: Record, key: string): (v: string)
    ensures key !in r ==> v == ""
    ensures key in r ==> v == r[key]
  {
    if key in r then r[key] else ""
  }

  /** A field read from a parsed item, as a Go map read: "" when no token
      carries the key, otherwise the value of the last token that does. */
  lemma LookupParsed(tokens: seq<string>, key: string, j: int)
    requires -1 <= j < |tokens|
    requires j >= 0 ==> Carries(tokens[j], key)
    requires forall l :: j < l < |tokens| ==> !Carries(tokens[l], key)
    ensures Lookup(Fields(tokens), key) == if j < 0 then "" else Field(tokens[j]).1
  {
    FieldsDomain(tokens, key);
    if j >= 0 {
      FieldsLastWins(tokens, j);
    }
  }

  /** The record fields a player's label vector carries, in the order the
      collector reads them. */
  const PlayerFieldKeys: seq<string> := [
    "player_id", "nickname", "clid", "cid", "client_database_id", "client_nickname",
    "client_type", "client_away", "client_away_message", "client_flag_talking",
    "client_input_muted", "client_output_muted", "client_input_hardware",
    "client_output_hardware", "client_talk_power", "client_is_talker",
    "client_is_priority_speaker", "client_is_recording", "client_is_channel_commander",
    "client_unique_identifier", "client_servergroups", "client_channel_group_id",
    "client_channel_group_inherited_channel_id", "client_version", "client_platform",
    "client_idle_time", "client_created", "client_lastconnected", "client_country",
    "connection_client_ip", "client_badges"
  ]

  /** The label vector of one player: server name, virtual-server name, then
      the fields the collector reads, absent ones as "". */
  function PlayerLabels(serverName: string, vsName: string, player: Record): seq<string>
  {
    [serverName, vsName] + seq(|PlayerFieldKeys|, i requires 0 <= i < |PlayerFieldKeys| => Lookup(player, PlayerFieldKeys[i]))
  }

  /** The label vector lines up with the descriptor's label names: 33
      entries, entry `i` (from 2 on) the field named by label `i`. */
  lemma PlayerLabelsMatchDescriptor(serverName: string, vsName: string, player: Record)
    ensures var labels := PlayerLabels(serverName, vsName, player);
      && |labels| == |PlayerLabelNames| == 33
      && labels[0] == serverName && labels[1] == vsName
      && forall i :: 2 <= i < |labels| ==> labels[i] == Lookup(player, PlayerLabelNames[i])
  {
    LabelNamesAreFieldKeys();
  }

  /** The descriptor names the fields in the order the collector reads them. */
  lemma LabelNamesAreFieldKeys()
    ensures |PlayerLabelNames| == 33 && PlayerLabelNames[2..] == PlayerFieldKeys
  {
  }

  /** The server's own query account, or any query client. */
  predicate IsQueryClient(player: Record)
  {
    Lookup(player, "client_nickname") == "serveradmin" || Lookup(player, "client_type") == "1"
  }

  /** What a visit emits: a server-info value under its metric name, or one
      online player with its label vector. */
  datatype Sample =
    | ServerMetric(metric: string, server: string, vserver: string, value: string)
    | PlayerOnline(labels: seq<string>)

  /** The server-info samples for the metric names in `names`, in that order:
      one per name the record carries. */
  function InfoSamples(server: string, vs: string, info: Record, names: seq<string>): seq<Sample>
  {
    if names == [] then []
    else
      var n := names[|names| - 1];
      InfoSamples(server, vs, info, names[..|names| - 1])
      + (if n in info then [ServerMetric(n, server, vs, info[n])] else [])
  }

  /** A sample is emitted exactly for a listed name the record carries, with
      the record's value. */
  lemma {:induction false} InfoSamplesExact(server: string, vs: string, info: Record, names: seq<string>, x: Sample)
    ensures x in InfoSamples(server, vs, info, names) <==>
      exists i :: 0 <= i < |names| && names[i] in info && x == ServerMetric(names[i], server, vs, info[names[i]])
  {
    if names != [] {
      var init := names[..|names| - 1];
      InfoSamplesExact(server, vs, info, init, x);
      if exists i :: 0 <= i < |init| && init[i] in info && x == ServerMetric(init[i], server, vs, info[init[i]]) {
        var i :| 0 <= i < |init| && init[i] in info && x == ServerMetric(init[i], server, vs, info[init[i]]);
        assert names[i] == init[i];
      }
      if exists i :: 0 <= i < |names| && names[i] in info && x == ServerMetric(names[i], server, vs, info[names[i]]) {
        var i :| 0 <= i < |names| && names[i] in info && x == ServerMetric(names[i], server, vs, info[names[i]]);
        if i < |init| {
          assert init[i] == names[i];
        }
      }
    }
  }

  /** The player samples for `players`, in order, query clients left out. */
  function PlayerSamples(server: string, vs: string, players: seq<Record>): seq<Sample>
  {
    if players == [] then []
    else
      var p := players[|players| - 1];
      PlayerSamples(server, vs, players[..|players| - 1]) + PlayerSample(server, vs, p)
  }

  /** The sample one player yields: none for a query client. */
  function PlayerSample(server: string, vs: string, player: Record): seq<Sample>
  {
    if IsQueryClient(player) then [] else [PlayerOnline(PlayerLabels(server, vs, player))]
  }

  /** A player sample is emitted exactly for each player that is not a query
      client. */
  lemma PlayerSamplesExact(server: string, vs: string, players: seq<Record>, x: Sample)
    ensures x in PlayerSamples(server, vs, players) <==>
      exists i :: 0 <= i < |players| && PlayerRow(server, vs, players[i], x)
  {
    if x in PlayerSamples(server, vs, players) {
      var i := PlayerSampleSource(server, vs, players, x);
    }
    if exists i :: 0 <= i < |players| && PlayerRow(server, vs, players[i], x) {
      var i :| 0 <= i < |players| && PlayerRow(server, vs, players[i], x);
      PlayerSampleEmitted(server, vs, players, i, x);
    }
  }

  /** Every player sample comes from a player that is not a query client. */
  lemma {:induction false} PlayerSampleSource(server: string, vs: string, players: seq<Record>, x: Sample)
    returns (i: int)
    requires x in PlayerSamples(server, vs, players)
    ensures 0 <= i < |players| && PlayerRow(server, vs, players[i], x)
  {
    var n := |players| - 1;
    var init := players[..n];
    PlayerSampleRow(server, vs, players[n], x);
    if PlayerRow(server, vs, players[n], x) {
      i := n;
    } else {
      i := PlayerSampleSource(server, vs, init, x);
      assert players[i] == init[i];
    }
  }

  /** Every player that is not a query client yields its sample. */
  lemma {:induction false} PlayerSampleEmitted(server: string, vs: string, players: seq<Record>, i: int, x: Sample)
    requires 0 <= i < |players| && PlayerRow(server, vs, players[i], x)
    ensures x in PlayerSamples(server, vs, players)
  {
    var n := |players| - 1;
    PlayerSampleRow(server, vs, players[n], x);
    if i < n {
      var init := players[..n];
      assert init[i] == players[i];
      PlayerSampleEmitted(server, vs, init, i, x);
    }
  }

  /** One player's sample list holds exactly its row. */
  lemma PlayerSampleRow(server: string, vs: string, player: Record, x: Sample)
    ensures x in PlayerSample(server, vs, player) <==> PlayerRow(server, vs, player, x)
  {
    if IsQueryClient(player) {
      assert PlayerSample(server, vs, player) == [];
    } else {
      var row := PlayerOnline(PlayerLabels(server, vs, player));
      assert PlayerSample(server, vs, player) == [row];
    }
  }

  /** No emitted label vector names the query account or a query client
      type. */
  lemma PlayerSamplesSkipQuery(server: string, vs: string, players: seq<Record>, x: Sample)
    requires x in PlayerSamples(server, vs, players)
    ensures x.PlayerOnline? && |x.labels| == 33 && x.labels[7] != "serveradmin" && x.labels[8] != "1"
  {
    PlayerSamplesExact(server, vs, players, x);
    var i :| 0 <= i < |players| && PlayerRow(server, vs, players[i], x);
    QueryFieldLabels(server, vs, players[i]);
  }

  /** `x` is the sample a player yields: the player is not a query client and
      `x` carries its label vector. */
  predicate PlayerRow(server: string, vs: string, player: Record, x: Sample)
  {
    !IsQueryClient(player) && x == PlayerOnline(PlayerLabels(server, vs, player))
  }

  /** Labels 7 and 8 are the two fields the query-client test reads. */
  lemma QueryFieldLabels(server: string, vs: string, player: Record)
    ensures |PlayerLabels(server, vs, player)| == 33
    ensures PlayerLabels(server, vs, player)[7] == Lookup(player, "client_nickname")
    ensures PlayerLabels(server, vs, player)[8] == Lookup(player, "client_type")
  {
    assert PlayerFieldKeys[5] == "client_nickname" && PlayerFieldKeys[6] == "client_type";
  }

  /** The ids of the listed virtual servers, in order, records without an id
      (or with an empty one) skipped. */
  function VirtualServerIds(records: seq<Record>): seq<string>
  {
    if records == [] then []
    else
      var vid := Lookup(records[|records| - 1], "virtualserver_id");
      VirtualServerIds(records[..|records| - 1]) + (if vid == "" then [] else [vid])
  }

  /** Exactly the non-empty ids are visited. */
  lemma {:induction false} VirtualServerIdsExact(records: seq<Record>, vid: string)
    ensures vid in VirtualServerIds(records) <==>
      vid != "" && exists i :: 0 <= i < |records| && Lookup(records[i], "virtualserver_id") == vid
  {
    if records != [] {
      var init := records[..|records| - 1];
      VirtualServerIdsExact(init, vid);
      if exists i :: 0 <= i < |init| && Lookup(init[i], "virtualserver_id") == vid {
        var i :| 0 <= i < |init| && Lookup(init[i], "virtualserver_id") == vid;
        assert records[i] == init[i];
      }
      if exists i :: 0 <= i < |records| && Lookup(records[i], "virtualserver_id") == vid {
        var i :| 0 <= i < |records| && Lookup(records[i], "virtualserver_id") == vid;
        if i < |init| {
          assert init[i] == records[i];
        }
      }
    }
  }

  /** The outcome of the `k`-th command a session executes; a script that
      has run out answers like a closed stream. */
  function Reply(replies: seq<Result<string>>, k: nat): Result<string>
  {
    if k < |replies| then replies[k] else Err(IoFailure("EOF"))
  }

  /** The three commands of a visit, in order. */
  function VisitCommands(vid: string): seq<string>
  {
    ["use " + vid, "serverinfo", ClientListCommand]
  }

  /** What a visit with a session does: the commands sent, whether the
      session is broken, and the samples. */
  datatype Visit = Visit(sent: seq<string>, broken: bool, samples: seq<Sample>)

  /** `collectVirtualServer` once it holds a session: select the virtual
      server, read its info, stop (keeping the session) when the info parses
      to no record, emit the info metrics, then list the players. Any failed
      command marks the session broken and ends the visit. */
  function VisitRun(metrics: seq<string>, server: string, vid: string, replies: seq<Result<string>>): Visit
  {
    var infos := InfoRecords(replies);
    Visit(VisitCommands(vid)[..SentCount(replies, infos)], Broken(replies, infos), VisitSamples(metrics, server, replies, infos))
  }

  /** The records `serverinfo` answered with; none when it failed. */
  function InfoRecords(replies: seq<Result<string>>): seq<Record>
  {
    if Reply(replies, 1).Ok? then Parse(Reply(replies, 1).value) else []
  }

  /** How many of the three commands a visit sends, `infos` being what the
      info parsed to. */
  function SentCount(replies: seq<Result<string>>, infos: seq<Record>): nat
  {
    if Reply(replies, 0).Err? then 1
    else if Reply(replies, 1).Err? || infos == [] then 2
    else 3
  }

  /** Whether a visit ends with the session marked broken. */
  function Broken(replies: seq<Result<string>>, infos: seq<Record>): bool
  {
    if Reply(replies, 0).Err? || Reply(replies, 1).Err? then true
    else if infos == [] then false
    else Reply(replies, 2).Err?
  }

  /** The samples of a visit: the info metrics once the info has a record,
      followed by the players once `clientlist` succeeded. */
  function VisitSamples(metrics: seq<string>, server: string, replies: seq<Result<string>>, infos: seq<Record>): seq<Sample>
  {
    if Reply(replies, 0).Err? || Reply(replies, 1).Err? || infos == [] then []
    else
      var vs := Lookup(infos[0], "virtualserver_name");
      var values := InfoSamples(server, vs, infos[0], metrics);
      if Reply(replies, 2).Err? then values
      else values + PlayerSamples(server, vs, Parse(Reply(replies, 2).value))
  }

  /** The commands of a visit are a non-empty prefix of `use`, `serverinfo`,
      `clientlist`; `clientlist` is sent exactly when the first two
      succeeded and the info has a record. */
  lemma VisitCommandsSent(metrics: seq<string>, server: string, vid: string, replies: seq<Result<string>>)
    ensures var sent := VisitRun(metrics, server, vid, replies).sent;
      1 <= |sent| <= 3 && sent[0] == "use " + vid
    ensures var sent := VisitRun(metrics, server, vid, replies).sent;
      |sent| == 3 <==> Reply(replies, 0).Ok? && Reply(replies, 1).Ok? && Parse(Reply(replies, 1).value) != []
    ensures var sent := VisitRun(metrics, server, vid, replies).sent;
      |sent| == 3 ==> sent == VisitCommands(vid)
  {
    var cmds := VisitCommands(vid);
    assert cmds[..3] == cmds;
  }

  /** A visit stops at the first failed command, and the session is broken
      exactly when one of the commands sent failed. */
  lemma VisitBroken(replies: seq<Result<string>>, infos: seq<Record>)
    ensures Broken(replies, infos) <==> exists k :: 0 <= k < SentCount(replies, infos) && Reply(replies, k).Err?
    ensures forall k :: 0 <= k < SentCount(replies, infos) - 1 ==> Reply(replies, k).Ok?
  {
    SentBeforeLastSucceeded(replies, infos);
    if Broken(replies, infos) {
      var k := BrokenAt(replies, infos);
    }
    if exists k :: 0 <= k < SentCount(replies, infos) && Reply(replies, k).Err? {
      var k :| 0 <= k < SentCount(replies, infos) && Reply(replies, k).Err?;
      FailureBreaks(replies, infos, k);
    }
  }

  /** Every command before the last one sent succeeded. */
  lemma SentBeforeLastSucceeded(replies: seq<Result<string>>, infos: seq<Record>)
    ensures forall k :: 0 <= k < SentCount(replies, infos) - 1 ==> Reply(replies, k).Ok?
  {
    var n := SentCount(replies, infos);
    if n >= 2 {
      assert Reply(replies, 0).Ok?;
    }
    if n == 3 {
      assert Reply(replies, 1).Ok?;
    }
  }

  /** A broken session saw a sent command fail. */
  lemma BrokenAt(replies: seq<Result<string>>, infos: seq<Record>) returns (k: nat)
    requires Broken(replies, infos)
    ensures k < SentCount(replies, infos) && Reply(replies, k).Err?
  {
    if Reply(replies, 0).Err? {
      k := 0;
    } else if Reply(replies, 1).Err? {
      k := 1;
    } else {
      k := 2;
    }
  }

  /** A failed sent command breaks the session. */
  lemma FailureBreaks(replies: seq<Result<string>>, infos: seq<Record>, k: nat)
    requires k < SentCount(replies, infos) && Reply(replies, k).Err?
    ensures Broken(replies, infos)
  {
    SentBeforeLastSucceeded(replies, infos);
    assert k == SentCount(replies, infos) - 1;
  }

  /** What one virtual-server task is given: what the pool's factory call
      would return, and the outcomes of the commands its session executes. */
  datatype Task<S> = Task(made: Result<S>, replies: seq<Result<string>>)

  /** The script of the `k`-th virtual-server task; tasks beyond the list
      cannot build a session. */
  function TaskAt<S>(tasks: seq<Task<S>>, k: nat): Task<S>
  {
    if k < |tasks| then tasks[k] else Task(Err(IoFailure("EOF")), [])
  }

  /** The samples of the visits, one task per virtual server; a task whose
      `Get` yielded no session contributes nothing. */
  function Harvest<S>(metrics: seq<string>, server: string, vids: seq<string>, got: seq<Outcome<S>>, tasks: seq<Task<S>>): seq<Sample>
    requires |got| == |vids|
  {
    if vids == [] then []
    else
      var k := |vids| - 1;
      Harvest(metrics, server, vids[..k], got[..k], tasks)
      + (if Obtained(got[k]) then VisitRun(metrics, server, vids[k], TaskAt(tasks, k).replies).samples else [])
  }

  /** One more visit adds its own samples, if it obtained a session. */
  lemma HarvestSnoc<S>(metrics: seq<string>, server: string, vids: seq<string>, got: seq<Outcome<S>>,
                       tasks: seq<Task<S>>, vid: string, out: Outcome<S>)
    requires |got| == |vids|
    ensures Harvest(metrics, server, vids + [vid], got + [out], tasks)
         == Harvest(metrics, server, vids, got, tasks)
            + (if Obtained(out) then VisitRun(metrics, server, vid, TaskAt(tasks, |vids|).replies).samples else [])
  {
    assert (vids + [vid])[..|vids|] == vids;
    assert (got + [out])[..|got|] == got;
  }

  /** The deferred disposal as a value: a broken session is discarded, any
      other put back. */
  function Settle<S>(st: State<S>, max: int, c: S, broken: bool): State<S>
  {
    if broken then Dispose(st, c) else GiveBack(st, max, c)
  }

  /** One `collectVirtualServer` task on an open pool as a value: `Get`,
      then, with a session, the visit and the disposal its `broken` flag
      chooses. */
  function VisitState<S>(st: State<S>, max: int, task: Task<S>, metrics: seq<string>, server: string, vid: string)
    : (Outcome<S>, State<S>)
  {
    var (o, st1) := Acquire(st, max, task.made);
    if Obtained(o) then (o, Settle(st1, max, o.session, VisitRun(metrics, server, vid, task.replies).broken))
    else (o, st1)
  }

  /** The tasks for `vids`, run in order on one pool, the `k`-th with task
      `k`: their outcomes and the final pool state. */
  function Visits<S>(st: State<S>, max: int, metrics: seq<string>, server: string, vids: seq<string>, tasks: seq<Task<S>>)
    : (r: (seq<Outcome<S>>, State<S>))
    ensures |r.0| == |vids|
  {
    if vids == [] then ([], st)
    else
      var k := |vids| - 1;
      var (got, st1) := Visits(st, max, metrics, server, vids[..k], tasks);
      var (o, st2) := VisitState(st1, max, TaskAt(tasks, k), metrics, server, vids[k]);
      (got + [o], st2)
  }

  /** One more visit runs on the state the earlier ones left. */
  lemma VisitsSnoc<S>(st: State<S>, max: int, metrics: seq<string>, server: string, vids: seq<string>,
                      tasks: seq<Task<S>>, vid: string)
    ensures var (got, st1) := Visits(st, max, metrics, server, vids, tasks);
      var (o, st2) := VisitState(st1, max, TaskAt(tasks, |vids|), metrics, server, vid);
      Visits(st, max, metrics, server, vids + [vid], tasks) == (got + [o], st2)
  {
    assert (vids + [vid])[..|vids|] == vids;
  }

  /** The `serverlist` step of `collectServer` as a value: `Get`, then, with
      a session, a discard when the listing failed and a put-back otherwise. */
  function Listing<S>(st: State<S>, max: int, made: Result<S>, listing: Result<string>): (Outcome<S>, State<S>)
  {
    var (o, st1) := Acquire(st, max, made);
    if Obtained(o) then (o, Settle(st1, max, o.session, listing.Err?)) else (o, st1)
  }

  /** What the `serverlist` step does to the pool: it obtains a session
      exactly as `Get` does; a failed listing discards the session, a
      successful one puts it back at the end of the queue (which has room
      when the session's slot was counted); without a session nothing
      changes. */
  lemma ListingOutcome<S>(st: State<S>, max: int, made: Result<S>, listing: Result<string>)
    requires 0 <= st.slots <= max && |st.idle| <= max && |st.idle| <= st.slots
    ensures var (o, st') := Listing(st, max, made, listing);
      var rest := if st.idle != [] then st.idle[1..] else [];
      && (Obtained(o) <==> st.idle != [] || (st.slots < max && made.Ok?))
      && (o.Reused? ==> o.session == st.idle[0])
      && (o.Created? ==> made == Ok(o.session))
      && (!Obtained(o) ==> st' == st)
      && (Obtained(o) && listing.Err? ==> st'.idle == rest && st'.closed == st.closed + [o.session])
      && (Obtained(o) && listing.Ok? ==> st'.idle == rest + [o.session] && st'.closed == st.closed)
  {
    AcquireOutcome(st, max, made);
  }

  /** The metric loop of `collectVirtualServer`: one sample per exported
      name the info record carries. */
  method EmitInfo(metrics: seq<string>, server: string, vs: string, info: Record)
    returns (samples: seq<Sample>)
    ensures samples == InfoSamples(server, vs, info, metrics)
  {
    samples := [];
    for i := 0 to |metrics|
      invariant samples == InfoSamples(server, vs, info, metrics[..i])
    {
      var name := metrics[i];
      assert metrics[..i + 1][..i] == metrics[..i];
      if name in info {
        samples := samples + [ServerMetric(name, server, vs, info[name])];
      }
    }
    assert metrics[..|metrics|] == metrics;
  }

  /** The player loop of `collectVirtualServer`: one sample per player that
      is not a query client. */
  method EmitPlayers(server: string, vs: string, players: seq<Record>) returns (samples: seq<Sample>)
    ensures samples == PlayerSamples(server, vs, players)
  {
    samples := [];
    for j := 0 to |players|
      invariant samples == PlayerSamples(server, vs, players[..j])
    {
      var player := players[j];
      assert players[..j + 1][..j] == players[..j];
      if !IsQueryClient(player) {
        samples := samples + [PlayerOnline(PlayerLabels(server, vs, player))];
      }
    }
    assert players[..|players|] == players;
  }

  /** The body of `collectVirtualServer` once it holds a session: the
      commands in order, the `broken` flag, the samples. */
  method RunVisit(metrics: seq<string>, server: string, vid: string, replies: seq<Result<string>>)
    returns (sent: seq<string>, broken: bool, samples: seq<Sample>)
    ensures Visit(sent, broken, samples) == VisitRun(metrics, server, vid, replies)
  {
    samples := [];
    broken := false;
    sent := ["use " + vid];
    var r := Reply(replies, 0);
    if r.Err? {
      broken := true;
      return;
    }
    sent := sent + ["serverinfo"];
    r := Reply(replies, 1);
    if r.Err? {
      broken := true;
      return;
    }
    var infos := ParseResponse(r.value);
    if infos == [] {
      return;
    }
    var info := infos[0];
    var vs := Lookup(info, "virtualserver_name");
    samples := EmitInfo(metrics, server, vs, info);
    sent := sent + [ClientListCommand];
    r := Reply(replies, 2);
    if r.Err? {
      broken := true;
      return;
    }
    var players := ParseResponse(r.value);
    var online := EmitPlayers(server, vs, players);
    samples := samples + online;
  }

  /** `collectVirtualServer`: gets a session (returning at once without
      one), runs the visit, then discards the session when it is broken and
      puts it back otherwise. With the pool balanced the task leaves it
      balanced and lends out nothing for good. */
  method CollectVirtualServer<F, S(==)>(pool: Pool<F, S>, made: Result<S>, metrics: seq<string>,
                                        server: string, vid: string, replies: seq<Result<string>>)
    returns (o: Outcome<S>, sent: seq<string>, samples: seq<Sample>)
    requires pool.Valid() && !pool.shut
    modifies pool
    ensures pool.Valid() && !pool.shut
    ensures Obtained(o) <==> old(pool.idle) != [] || (old(pool.slots) < pool.max && made.Ok?)
    ensures o.Reused? ==> old(pool.idle) != [] && o.session == old(pool.idle)[0]
    ensures o.Created? ==> made == Ok(o.session)
    ensures !Obtained(o) ==> sent == [] && samples == [] && pool.closed == old(pool.closed)
    ensures Obtained(o) ==>
      var v := VisitRun(metrics, server, vid, replies);
      var rest := if old(pool.idle) != [] then old(pool.idle)[1..] else [];
      && sent == v.sent && samples == v.samples
      && (v.broken ==> pool.idle == rest && pool.closed == old(pool.closed) + [o.session])
      && (!v.broken && old(pool.Balanced()) ==> pool.idle == rest + [o.session] && pool.closed == old(pool.closed))
    ensures (o, pool.Snapshot()) == VisitState(old(pool.Snapshot()), pool.max, Task(made, replies), metrics, server, vid)
    ensures old(pool.Balanced()) ==> pool.Balanced() && pool.lent == old(pool.lent)
  {
    o := pool.Get(made);
    if !Obtained(o) {
      return o, [], [];
    }
    var broken;
    sent, broken, samples := RunVisit(metrics, server, vid, replies);
    // the deferred disposal
    Release(pool, o.session, broken);
  }

  /** Hands a used session back: discarded when it is broken, put back
      otherwise. */
  method Release<F, S(==)>(pool: Pool<F, S>, c: S, broken: bool)
    requires pool.Valid() && !pool.shut
    modifies pool
    ensures pool.Valid() && !pool.shut
    ensures broken ==> pool.idle == old(pool.idle) && pool.closed == old(pool.closed) + [c]
    ensures !broken && old(pool.Balanced()) && c in old(pool.lent) ==>
      pool.idle == old(pool.idle) + [c] && pool.closed == old(pool.closed)
    ensures pool.Snapshot() == Settle(old(pool.Snapshot()), pool.max, c, broken)
    ensures pool.lent == old(pool.lent) - multiset{c}
    ensures old(pool.Balanced()) && c in old(pool.lent) ==> pool.Balanced()
  {
    if broken {
      pool.Discard(c);
    } else {
      pool.Put(c);
    }
  }

  /** The pool key of each server, in configuration order. */
  function Keys(servers: seq<ServerConfig>): (keys: seq<string>)
    ensures |keys| == |servers|
    ensures forall i :: 0 <= i < |servers| ==> keys[i] == PoolKey(servers[i])
  {
    seq(|servers|, i requires 0 <= i < |servers| => PoolKey(servers[i]))
  }

  /** The position of the last occurrence of `key`, -1 when there is none. */
  function LastIndex(keys: seq<string>, key: string): (j: int)
    ensures -1 <= j < |keys|
    ensures j >= 0 <==> key in keys
    ensures j >= 0 ==> keys[j] == key
    ensures forall l :: j < l < |keys| ==> keys[l] != key
  {
    if keys == [] then -1
    else if keys[|keys| - 1] == key then |keys| - 1
    else LastIndex(keys[..|keys| - 1], key)
  }

  /** One more key moves the last occurrence only of that key. */
  lemma LastIndexSnoc(keys: seq<string>, x: string, key: string)
    ensures LastIndex(keys + [x], key) == if x == key then |keys| else LastIndex(keys, key)
  {
    assert (keys + [x])[..|keys|] == keys;
  }

  /** The loop of `collectServer` over the listed virtual servers: those
      with an id are visited in order, the `k`-th of them with task `k`. */
  method VisitAll<S(==)>(pool: Pool<ServerConfig, S>, metrics: seq<string>, server: string,
                         records: seq<Record>, tasks: seq<Task<S>>)
    returns (vids: seq<string>, got: seq<Outcome<S>>, samples: seq<Sample>)
    requires pool.Valid() && !pool.shut
    modifies pool
    ensures pool.Valid() && !pool.shut
    ensures vids == VirtualServerIds(records)
    ensures (got, pool.Snapshot()) == Visits(old(pool.Snapshot()), pool.max, metrics, server, vids, tasks)
    ensures |got| == |vids| && samples == Harvest(metrics, server, vids, got, tasks)
    ensures old(pool.Balanced()) ==> pool.Balanced() && pool.lent == old(pool.lent)
  {
    vids, got, samples := [], [], [];
    for i := 0 to |records|
      invariant pool.Valid() && !pool.shut
      invariant vids == VirtualServerIds(records[..i])
      invariant (got, pool.Snapshot()) == Visits(old(pool.Snapshot()), pool.max, metrics, server, vids, tasks)
      invariant |got| == |vids| && samples == Harvest(metrics, server, vids, got, tasks)
      invariant old(pool.Balanced()) ==> pool.Balanced() && pool.lent == old(pool.lent)
    {
      assert records[..i + 1][..i] == records[..i];
      var vid := Lookup(records[i], "virtualserver_id");
      if vid != "" {
        var task := TaskAt(tasks, |vids|);
        var out, _, visitSamples := CollectVirtualServer(pool, task.made, metrics, server, vid, task.replies);
        HarvestSnoc(metrics, server, vids, got, tasks, vid, out);
        VisitsSnoc(old(pool.Snapshot()), pool.max, metrics, server, vids, tasks, vid);
        vids, got, samples := vids + [vid], got + [out], samples + visitSamples;
      }
    }
    assert records[..|records|] == records;
  }

  /** `collectServer` on the server's pool: gets a session (returning at
      once without one), lists the virtual servers (discarding the session
      and stopping when that fails), puts the session back, then visits each
      listed virtual server that has an id. */
  method ServeServer<S(==)>(pool: Pool<ServerConfig, S>, made: Result<S>, listing: Result<string>,
                            metrics: seq<string>, server: string, tasks: seq<Task<S>>)
    returns (o: Outcome<S>, sent: seq<string>, vids: seq<string>, got: seq<Outcome<S>>, samples: seq<Sample>)
    requires pool.Valid() && !pool.shut
    modifies pool
    ensures pool.Valid() && !pool.shut
    ensures Obtained(o) <==> old(pool.idle) != [] || (old(pool.slots) < pool.max && made.Ok?)
    ensures sent == (if Obtained(o) then ["serverlist"] else [])
    ensures !Obtained(o) || listing.Err? ==> vids == [] && got == [] && samples == []
    ensures Obtained(o) && listing.Ok? ==> vids == VirtualServerIds(Parse(listing.value))
    ensures var (o', st) := Listing(old(pool.Snapshot()), pool.max, made, listing);
      && o == o'
      && (got, pool.Snapshot()) == Visits(st, pool.max, metrics, server, vids, tasks)
    ensures |got| == |vids| && samples == Harvest(metrics, server, vids, got, tasks)
    ensures old(pool.Balanced()) ==> pool.Balanced() && pool.lent == old(pool.lent)
  {
    var listed;
    o, sent, listed := ListVirtualServers(pool, made, listing);
    vids, got, samples := [], [], [];
    if listed {
      var records := ParseResponse(listing.value);
      vids, got, samples := VisitAll(pool, metrics, server, records, tasks);
    }
  }

  /** The first half of `collectServer`: a session for `serverlist`, which
      is discarded when the command fails and put back otherwise; without a
      session no command is sent. */
  method ListVirtualServers<S(==)>(pool: Pool<ServerConfig, S>, made: Result<S>, listing: Result<string>)
    returns (o: Outcome<S>, sent: seq<string>, listed: bool)
    requires pool.Valid() && !pool.shut
    modifies pool
    ensures pool.Valid() && !pool.shut
    ensures (o, pool.Snapshot()) == Listing(old(pool.Snapshot()), pool.max, made, listing)
    ensures Obtained(o) <==> old(pool.idle) != [] || (old(pool.slots) < pool.max && made.Ok?)
    ensures o.Reused? ==> old(pool.idle) != [] && o.session == old(pool.idle)[0]
    ensures o.Created? ==> made == Ok(o.session)
    ensures sent == (if Obtained(o) then ["serverlist"] else [])
    ensures listed <==> Obtained(o) && listing.Ok?
    ensures !Obtained(o) ==> pool.Snapshot() == old(pool.Snapshot())
    ensures Obtained(o) ==>
      var rest := if old(pool.idle) != [] then old(pool.idle)[1..] else [];
      && (listing.Err? ==> pool.idle == rest && pool.closed == old(pool.closed) + [o.session])
      && (listing.Ok? && old(pool.Balanced()) ==> pool.idle == rest + [o.session] && pool.closed == old(pool.closed))
    ensures old(pool.Balanced()) ==> pool.Balanced() && pool.lent == old(pool.lent)
  {
    o := pool.Get(made);
    sent, listed := [], false;
    if Obtained(o) {
      sent := ["serverlist"];
      Release(pool, o.session, listing.Err?);
      listed := listing.Ok?;
    }
  }

  /** A pool as `NewPool` leaves it, with the collector's capacity. */
  ghost predicate Pristine<S>(p: Pool<ServerConfig, S>)
    reads p
  {
    p.Valid() && !p.shut && p.max == PoolCapacity && p.idle == [] && p.slots == 0 && p.Balanced()
  }

  /** No two keys share a pool. */
  predicate Distinct<S>(ps: map<string, Pool<ServerConfig, S>>)
  {
    forall k1, k2 :: k1 in ps && k2 in ps && k1 != k2 ==> ps[k1] != ps[k2]
  }

  /** One step of the pools loop: a new pool for server `i`, stored under
      its key. */
  method AddPool<S(==)>(ps: map<string, Pool<ServerConfig, S>>, servers: seq<ServerConfig>, ghost keys: seq<string>, i: int)
    returns (ps': map<string, Pool<ServerConfig, S>>)
    requires 0 <= i < |servers| && keys == Keys(servers)
    requires forall k :: k in ps <==> k in keys[..i]
    requires forall k :: k in ps ==> ps[k].factory == servers[LastIndex(keys[..i], k)]
    requires forall k :: k in ps ==> Pristine(ps[k])
    requires Distinct(ps)
    ensures forall k :: k in ps' <==> k in keys[..i + 1]
    ensures forall k :: k in ps' ==> ps'[k].factory == servers[LastIndex(keys[..i + 1], k)]
    ensures forall k :: k in ps' ==> Pristine(ps'[k]) && ((k in ps && ps'[k] == ps[k]) || fresh(ps'[k]))
    ensures keys[i] in ps' && fresh(ps'[keys[i]]) && ps'[keys[i]].factory == servers[i]
    ensures forall k :: k in ps && k != keys[i] ==> ps'[k] == ps[k]
    ensures Distinct(ps')
  {
    var p := new Pool<ServerConfig, S>(servers[i], PoolCapacity);
    assert keys[i] == PoolKey(servers[i]);
    ps' := ps[PoolKey(servers[i]) := p];
    StoreStep(ps, ps', servers, keys, i, p);
    InsertFresh(ps, keys[i], p);
  }

  /** Storing a pool no key holds yet keeps the pools pairwise distinct and
      changes no other key. */
  lemma InsertFresh<S>(ps: map<string, Pool<ServerConfig, S>>, key: string, p: Pool<ServerConfig, S>)
    requires Distinct(ps) && forall k :: k in ps ==> ps[k] != p
    ensures Distinct(ps[key := p])
    ensures forall k :: k in ps && k != key ==> ps[key := p][k] == ps[k]
  {
  }

  /** Storing server `i`'s pool under its key keeps the map keyed by the
      first `i + 1` keys, each holding the factory of its last server. */
  lemma StoreStep<S>(ps: map<string, Pool<ServerConfig, S>>, ps': map<string, Pool<ServerConfig, S>>,
                     servers: seq<ServerConfig>, keys: seq<string>, i: int, p: Pool<ServerConfig, S>)
    requires 0 <= i < |servers| && keys == Keys(servers)
    requires p.factory == servers[i] && ps' == ps[keys[i] := p]
    requires forall k :: k in ps <==> k in keys[..i]
    requires forall k :: k in ps ==> ps[k].factory == servers[LastIndex(keys[..i], k)]
    ensures forall k :: k in ps' <==> k in keys[..i + 1]
    ensures forall k :: k in ps' ==> ps'[k].factory == servers[LastIndex(keys[..i + 1], k)]
  {
    assert keys[..i + 1] == keys[..i] + [keys[i]];
    forall k ensures LastIndex(keys[..i + 1], k) == if keys[i] == k then i else LastIndex(keys[..i], k) {
      LastIndexSnoc(keys[..i], keys[i], k);
    }
  }

  /** The pools loop of `NewTS3Collector`: one new pool of capacity
      `PoolCapacity` per server, stored under its pool key, so that a later
      server with the same key replaces the earlier one's pool. */
  method BuildPools<S(==)>(servers: seq<ServerConfig>) returns (ps: map<string, Pool<ServerConfig, S>>)
    ensures forall k :: k in ps <==> k in Keys(servers)
    ensures forall k :: k in ps ==> ps[k].factory == servers[LastIndex(Keys(servers), k)]
    ensures forall k :: k in ps ==> fresh(ps[k]) && Pristine(ps[k])
    ensures Distinct(ps)
  {
    ghost var keys := Keys(servers);
    ps := map[];
    for i := 0 to |servers|
      invariant forall k :: k in ps <==> k in keys[..i]
      invariant forall k :: k in ps ==> ps[k].factory == servers[LastIndex(keys[..i], k)]
      invariant forall k :: k in ps ==> fresh(ps[k]) && Pristine(ps[k])
      invariant Distinct(ps)
    {
      ps := AddPool(ps, servers, keys, i);
    }
    assert keys[..|servers|] == keys;
  }

  /** The collector: one pool per distinct pool key, and the metric names
      it exports. */
  class TS3Collector<S(==)> {
    const servers: seq<ServerConfig>
    const metrics: seq<string>
    var pools: map<string, Pool<ServerConfig, S>>

    /** The pools exist for exactly the configured keys and are usable and
        sized `PoolCapacity`. */
    predicate Valid()
      reads this, pools.Values
    {
      && (forall i :: 0 <= i < |servers| ==> PoolKey(servers[i]) in pools)
      && (forall k :: k in pools ==> pools[k].Valid() && !pools[k].shut && pools[k].max == PoolCapacity)
    }

    /** `NewTS3Collector`: the exported metric names, and one empty pool per
        configured server keyed by its pool key; when several servers share
        a key the pool kept is the last one's, with its factory. */
    constructor (servers: seq<ServerConfig>)
      ensures this.servers == servers && metrics == ServerMetricNames && Valid()
      ensures forall k :: k in pools <==> k in Keys(servers)
      ensures forall k :: k in pools ==> pools[k].factory == servers[LastIndex(Keys(servers), k)]
      ensures forall k :: k in pools ==> fresh(pools[k]) && pools[k].idle == [] && pools[k].slots == 0
      ensures forall k :: k in pools ==> pools[k].Balanced() && pools[k].lent == multiset{}
      ensures Distinct(pools)
    {
      this.servers, metrics := servers, ServerMetricNames;
      var ps := BuildPools(servers);
      pools := ps;
      new;
      forall i | 0 <= i < |servers| ensures PoolKey(servers[i]) in pools {
        assert Keys(servers)[i] == PoolKey(servers[i]);
      }
    }

    /** `collectServer` for one configured server, on that server's pool. */
    method CollectServer(server: ServerConfig, made: Result<S>, listing: Result<string>, tasks: seq<Task<S>>)
      returns (o: Outcome<S>, sent: seq<string>, vids: seq<string>, got: seq<Outcome<S>>, samples: seq<Sample>)
      requires Valid() && server in servers
      modifies pools[PoolKey(server)]
      ensures Valid()
      ensures var pool := pools[PoolKey(server)];
        Obtained(o) <==> old(pool.idle) != [] || (old(pool.slots) < pool.max && made.Ok?)
      ensures sent == (if Obtained(o) then ["serverlist"] else [])
      ensures !Obtained(o) || listing.Err? ==> vids == [] && got == [] && samples == []
      ensures Obtained(o) && listing.Ok? ==> vids == VirtualServerIds(Parse(listing.value))
      ensures var pool := pools[PoolKey(server)];
        var (o', st) := Listing(old(pool.Snapshot()), pool.max, made, listing);
        && o == o'
        && (got, pool.Snapshot()) == Visits(st, pool.max, metrics, server.name, vids, tasks)
      ensures |got| == |vids| && samples == Harvest(metrics, server.name, vids, got, tasks)
      ensures var pool := pools[PoolKey(server)];
        old(pool.Balanced()) ==> pool.Balanced() && pool.lent == old(pool.lent)
    {
      var pool := pools[PoolKey(server)];
      o, sent, vids, got, samples := ServeServer(pool, made, listing, metrics, server.name, tasks);
    }
  }
}
