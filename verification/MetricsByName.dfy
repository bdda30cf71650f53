/** Which value of the measured ones each metric name carries in the texts of
    internal/metrics/lineproto.go:18-149, once these are decoded. */
module MetricsByName {
  import opened LineProtocol
  import opened Metrics
  import opened Text

  /** The records of one name, in order. */
  function ByName(records: seq<Record>, name: string): seq<Record> {
    if records == [] then []
    else
      var last := records[|records| - 1];
      ByName(records[..|records| - 1], name) + if last.name == name then [last] else []
  }

  /** `r` is the only record of its name. */
  ghost predicate Sole(records: seq<Record>, r: Record) {
    ByName(records, r.name) == [r]
  }

  /** One record has the name, and it has this value, as text, these tags and this time. */
  ghost predicate Says(records: seq<Record>, name: string, tags: seq<Tag>, text: string, ts: int) {
    var found := ByName(records, name);
    |found| == 1 && found[0].name == name && found[0].tags == tags && found[0].value == text && found[0].ts == ts
  }

  lemma {:induction false} SoleSays(records: seq<Record>, r: Record)
    requires Sole(records, r)
    ensures Says(records, r.name, r.tags, r.value, r.ts)
  {
  }

  lemma {:induction false} ByNameAppend(a: seq<Record>, b: seq<Record>, name: string)
    ensures ByName(a + b, name) == ByName(a, name) + ByName(b, name)
  {
    if b == [] {
      assert a + b == a;
    } else {
      var n := |b| - 1;
      assert (a + b)[..|a| + n] == a + b[..n];
      ByNameAppend(a, b[..n], name);
    }
  }

  lemma {:induction false} NoneOfName(records: seq<Record>, name: string)
    requires forall r :: r in records ==> r.name != name
    ensures ByName(records, name) == []
  {
    if records != [] {
      var n := |records| - 1;
      assert records == records[..n] + [records[n]];
      NoneOfName(records[..n], name);
    }
  }

  lemma {:induction false} SoleAt(records: seq<Record>, i: nat)
    requires i < |records| && forall j :: 0 <= j < |records| && j != i ==> records[j].name != records[i].name
    ensures Sole(records, records[i])
  {
    var n := |records| - 1;
    if i == n {
      NoneOfName(records[..n], records[n].name);
    } else {
      SoleAt(records[..n], i);
    }
  }

  /** Enough of a name to tell the emitted ones apart: its length and three of its bytes. */
  function Code(name: string): int {
    if |name| < 6 then |name|
    else ((|name| * 256 + name[0] as int) * 256 + name[4] as int) * 256 + name[5] as int
  }

  /** The place of a name among the gauges of a server; disks and interfaces come after. */
  function Place(name: string): int {
    var code := Code(name);
    if code == 140735859 then 0
    else if code == 140734057 then 1
    else if code == 174289785 then 2
    else if code == 140732772 then 3
    else if code == 174287215 then 4
    else if code == 123955570 then 5
    else if code == 191066991 then 6
    else if code == 157512564 then 7
    else if code == 258831471 then 8
    else if code == 325935478 then 9
    else if code == 242050674 then 10
    else if code == 292381301 then 11
    else if code == 275604321 then 12
    else if code == 275996532 then 13
    else if code == 259219302 then 14
    else if code == 124542769 then 15
    else if code == 124542773 then 16
    else if code == 141319985 then 17
    else if code == 242576741 then 18
    else if code == 258236277 then 19
    else if code == 275013492 then 20
    else if code == 208564856 then 21
    else if code == 208565368 then 22
    else -1
  }

  lemma {:induction false} CpuPlaces(m: ServerMetrics)
    ensures |CpuGauges(m)| == 8 && forall i :: 0 <= i < 8 ==> Place(CpuGauges(m)[i].name) == 0 + i
  {
    hide IntText;
  }

  lemma {:induction false} MemoryPlaces(m: ServerMetrics)
    ensures |MemoryGauges(m)| == 7 && forall i :: 0 <= i < 7 ==> Place(MemoryGauges(m)[i].name) == 8 + i
  {
    hide IntText;
  }

  lemma {:induction false} LoadPlaces(m: ServerMetrics)
    ensures |LoadGauges(m)| == 4 && forall i :: 0 <= i < 4 ==> Place(LoadGauges(m)[i].name) == 15 + i
  {
    hide IntText;
  }

  lemma {:induction false} DiskPlaces(disks: seq<DiskMount>)
    ensures forall it :: it in AllDisks(disks) ==> Place(it.name) >= 19
  {
    hide IntText;
    if disks != [] {
      var n := |disks| - 1;
      DiskPlaces(disks[..n]);
      assert AllDisks(disks) == AllDisks(disks[..n]) + DiskItems(disks[n]);
    }
  }

  lemma {:induction false} NetPlaces(net: seq<NetIface>)
    ensures forall it :: it in AllNets(net) ==> Place(it.name) >= 19
  {
    hide IntText;
    if net != [] {
      var n := |net| - 1;
      NetPlaces(net[..n]);
      assert AllNets(net) == AllNets(net[..n]) + NetItems(net[n]);
    }
  }

  /** No other item of the server has the name of a gauge. */
  lemma {:induction false} ServerPlaces(m: ServerMetrics)
    ensures |ServerGauges(m)| == 19 && |ServerItems(m)| >= 19 && ServerItems(m)[..19] == ServerGauges(m)
    ensures forall i :: 0 <= i < 19 ==> Place(ServerItems(m)[i].name) == i
    ensures forall j :: 19 <= j < |ServerItems(m)| ==> Place(ServerItems(m)[j].name) >= 19
  {
    CpuPlaces(m);
    MemoryPlaces(m);
    LoadPlaces(m);
    DiskPlaces(m.disks);
    NetPlaces(m.net);
    hide Place;
    hide CpuGauges;
    hide MemoryGauges;
    hide LoadGauges;
    hide AllDisks;
    hide AllNets;
    var items, gauges, disks, net := ServerItems(m), ServerGauges(m), AllDisks(m.disks), AllNets(m.net);
    assert items == gauges + disks + net;
    forall j | 19 <= j < |items| ensures Place(items[j].name) >= 19 {
      if j < 19 + |disks| {
        assert items[j] == disks[j - 19] && disks[j - 19] in disks;
      } else {
        assert items[j] == net[j - 19 - |disks|] && net[j - 19 - |disks|] in net;
      }
    }
  }

  lemma {:induction false} SamePrefix(prefix: string, a: string, b: string)
    ensures prefix + a == prefix + b ==> a == b
  {
    assert (prefix + a)[|prefix|..] == a && (prefix + b)[|prefix|..] == b;
  }

  /** An item whose name no other has gives the only record of its name. */
  lemma {:induction false} SoleItem(prefix: string, shared: seq<Tag>, items: seq<Item>, i: nat, ts: Int64)
    requires i < |items| && forall j :: 0 <= j < |items| && j != i ==> items[j].name != items[i].name
    ensures Sole(RecordsOf(prefix, shared, items, ts), RecordOf(prefix, shared, items[i], ts))
  {
    hide Sole;
    hide ExtraTags;
    var records := RecordsOf(prefix, shared, items, ts);
    forall j | 0 <= j < |records| && j != i ensures records[j].name != records[i].name {
      SamePrefix(prefix, items[j].name, items[i].name);
    }
    SoleAt(records, i);
  }

  lemma {:induction false} SoleGauge(m: ServerMetrics, server: string, i: nat)
    requires i < 19
    ensures |ServerGauges(m)| == 19
    ensures Sole(ServerRecords(m, server), RecordOf("frappe_server_", [Tag("server", server)], ServerGauges(m)[i], m.ts))
  {
    ServerPlaces(m);
    hide Place;
    hide ServerItems;
    hide ServerGauges;
    hide RecordsOf;
    hide RecordOf;
    hide Sole;
    var items := ServerItems(m);
    assert items[i] == items[..19][i];
    SoleItem(SERVER, [Tag("server", server)], items, i, m.ts);
  }

  /** The text of a server, decoded. */
  ghost predicate ServerText(m: ServerMetrics, server: string, records: seq<Record>) {
    && '\n' !in server && (forall d :: d in m.disks ==> '\n' !in d.mount) && (forall n :: n in m.net ==> '\n' !in n.name)
    && Decode(Rendered(ServerRecords(m, server))) == Some(records)
  }

  lemma {:induction false} ServerTextIs(m: ServerMetrics, server: string, records: seq<Record>)
    requires ServerText(m, server, records)
    ensures records == ServerRecords(m, server)
  {
    hide ServerRecords;
    hide Decode;
    hide Rendered;
    ServerTextDecodes(m, server);
  }

  /** The only record of its name, as the text of the server has it. */
  ghost predicate ServerSays(records: seq<Record>, m: ServerMetrics, server: string, name: string, text: string) {
    Says(records, "frappe_server_" + name, [Tag("server", server)], text, m.ts)
  }

  lemma {:induction false} GaugeSays(m: ServerMetrics, server: string, i: nat, name: string, value: Number)
    requires i < |ServerGauges(m)| == 19 && ServerGauges(m)[i] == Gauge(name, value)
    ensures ServerSays(ServerRecords(m, server), m, server, name, value)
  {
    hide ServerGauges;
    hide ServerRecords;
    hide Sole;
    SoleGauge(m, server, i);
    SoleSays(ServerRecords(m, server), RecordOf("frappe_server_", [Tag("server", server)], ServerGauges(m)[i], m.ts));
    assert [Tag("server", server)] + [] == [Tag("server", server)];
  }

  lemma {:induction false} CpuGaugesSplit(m: ServerMetrics)
    ensures |ServerGauges(m)| == 19 && |CpuGauges(m)| == 8 && forall k :: 0 <= k < 8 ==> ServerGauges(m)[k] == CpuGauges(m)[k]
  {
    hide IntText;
    CpuPlaces(m);
    MemoryPlaces(m);
    LoadPlaces(m);
    hide Place;
    hide CpuGauges;
    hide MemoryGauges;
    hide LoadGauges;
  }

  lemma {:induction false} MemoryGaugesSplit(m: ServerMetrics)
    ensures |ServerGauges(m)| == 19 && |MemoryGauges(m)| == 7 && forall k :: 8 <= k < 15 ==> ServerGauges(m)[k] == MemoryGauges(m)[k - 8]
  {
    hide IntText;
    CpuPlaces(m);
    MemoryPlaces(m);
    LoadPlaces(m);
    hide Place;
    hide CpuGauges;
    hide MemoryGauges;
    hide LoadGauges;
  }

  lemma {:induction false} LoadGaugesSplit(m: ServerMetrics)
    ensures |ServerGauges(m)| == 19 && |LoadGauges(m)| == 4 && forall k :: 15 <= k < 19 ==> ServerGauges(m)[k] == LoadGauges(m)[k - 15]
  {
    hide IntText;
    CpuPlaces(m);
    MemoryPlaces(m);
    LoadPlaces(m);
    hide Place;
    hide CpuGauges;
    hide MemoryGauges;
    hide LoadGauges;
  }

  /** In the decoded text of a server each CPU counter is there once, under its own name. */
  lemma {:induction false} CpuSaid(m: ServerMetrics, server: string, records: seq<Record>)
    requires ServerText(m, server, records)
    ensures ServerSays(records, m, server, "cpu_user", IntText(m.cpuUser))
    ensures ServerSays(records, m, server, "cpu_nice", IntText(m.cpuNice))
    ensures ServerSays(records, m, server, "cpu_system", IntText(m.cpuSystem))
    ensures ServerSays(records, m, server, "cpu_idle", IntText(m.cpuIdle))
  {
    hide IntText;
    hide ServerRecords;
    hide ServerSays;
    hide ServerText;
    hide ServerGauges;
    ServerTextIs(m, server, records);
    CpuGaugesSplit(m);
    GaugeSays(m, server, 0, "cpu_user", Num(m.cpuUser));
    GaugeSays(m, server, 1, "cpu_nice", Num(m.cpuNice));
    GaugeSays(m, server, 2, "cpu_system", Num(m.cpuSystem));
    GaugeSays(m, server, 3, "cpu_idle", Num(m.cpuIdle));
  }

  lemma {:induction false} OtherCpuSaid(m: ServerMetrics, server: string, records: seq<Record>)
    requires ServerText(m, server, records)
    ensures ServerSays(records, m, server, "cpu_iowait", IntText(m.cpuIOWait))
    ensures ServerSays(records, m, server, "cpu_irq", IntText(m.cpuIRQ))
    ensures ServerSays(records, m, server, "cpu_softirq", IntText(m.cpuSoftIRQ))
    ensures ServerSays(records, m, server, "cpu_steal", IntText(m.cpuSteal))
  {
    hide IntText;
    hide ServerRecords;
    hide ServerSays;
    hide ServerText;
    hide ServerGauges;
    ServerTextIs(m, server, records);
    CpuGaugesSplit(m);
    GaugeSays(m, server, 4, "cpu_iowait", Num(m.cpuIOWait));
    GaugeSays(m, server, 5, "cpu_irq", Num(m.cpuIRQ));
    GaugeSays(m, server, 6, "cpu_softirq", Num(m.cpuSoftIRQ));
    GaugeSays(m, server, 7, "cpu_steal", Num(m.cpuSteal));
  }

  /** Each memory figure as well, in bytes. */
  lemma {:induction false} MemorySaid(m: ServerMetrics, server: string, records: seq<Record>)
    requires ServerText(m, server, records)
    ensures ServerSays(records, m, server, "mem_total_bytes", IntText(1024 * m.memTotalKB))
    ensures ServerSays(records, m, server, "mem_available_bytes", IntText(1024 * m.memAvailableKB))
    ensures ServerSays(records, m, server, "mem_free_bytes", IntText(1024 * m.memFreeKB))
    ensures ServerSays(records, m, server, "mem_buffers_bytes", IntText(1024 * m.memBuffersKB))
  {
    hide IntText;
    hide ServerRecords;
    hide ServerSays;
    hide ServerText;
    hide ServerGauges;
    ServerTextIs(m, server, records);
    MemoryGaugesSplit(m);
    GaugeSays(m, server, 8, "mem_total_bytes", Num(1024 * m.memTotalKB));
    GaugeSays(m, server, 9, "mem_available_bytes", Num(1024 * m.memAvailableKB));
    GaugeSays(m, server, 10, "mem_free_bytes", Num(1024 * m.memFreeKB));
    GaugeSays(m, server, 11, "mem_buffers_bytes", Num(1024 * m.memBuffersKB));
  }

  lemma {:induction false} CacheAndSwapSaid(m: ServerMetrics, server: string, records: seq<Record>)
    requires ServerText(m, server, records)
    ensures ServerSays(records, m, server, "mem_cached_bytes", IntText(1024 * m.memCachedKB))
    ensures ServerSays(records, m, server, "swap_total_bytes", IntText(1024 * m.swapTotalKB))
    ensures ServerSays(records, m, server, "swap_free_bytes", IntText(1024 * m.swapFreeKB))
  {
    hide IntText;
    hide ServerRecords;
    hide ServerSays;
    hide ServerText;
    hide ServerGauges;
    ServerTextIs(m, server, records);
    MemoryGaugesSplit(m);
    GaugeSays(m, server, 12, "mem_cached_bytes", Num(1024 * m.memCachedKB));
    GaugeSays(m, server, 13, "swap_total_bytes", Num(1024 * m.swapTotalKB));
    GaugeSays(m, server, 14, "swap_free_bytes", Num(1024 * m.swapFreeKB));
  }

  /** And the loads and the uptime. */
  lemma {:induction false} LoadSaid(m: ServerMetrics, server: string, records: seq<Record>)
    requires ServerText(m, server, records)
    ensures ServerSays(records, m, server, "load_1m", m.load1)
    ensures ServerSays(records, m, server, "load_5m", m.load5)
    ensures ServerSays(records, m, server, "load_15m", m.load15)
    ensures ServerSays(records, m, server, "uptime_seconds", m.uptimeSeconds)
  {
    hide IntText;
    hide ServerRecords;
    hide ServerSays;
    hide ServerText;
    hide ServerGauges;
    ServerTextIs(m, server, records);
    LoadGaugesSplit(m);
    GaugeSays(m, server, 15, "load_1m", m.load1);
    GaugeSays(m, server, 16, "load_5m", m.load5);
    GaugeSays(m, server, 17, "load_15m", m.load15);
    GaugeSays(m, server, 18, "uptime_seconds", m.uptimeSeconds);
  }

  /** The text of a bench, decoded. */
  ghost predicate BenchText(m: BenchMetrics, server: string, records: seq<Record>) {
    && '\n' !in server && '\n' !in m.bench && '\n' !in m.frappeVersion && (forall q :: q in m.redisQueues ==> '\n' !in q.name)
    && Decode(Rendered(BenchRecords(m, server))) == Some(records)
  }

  function TagsOfBench(m: BenchMetrics, server: string): seq<Tag> {
    [Tag("server", server), Tag("bench", m.bench)]
  }

  lemma {:induction false} BenchTextIs(m: BenchMetrics, server: string, records: seq<Record>)
    requires BenchText(m, server, records)
    ensures records == RecordsOf("frappe_bench_", TagsOfBench(m, server), BenchItems(m), m.ts)
  {
    hide RecordsOf;
    hide BenchItems;
    hide Decode;
    hide Rendered;
    BenchTextDecodes(m, server);
  }

  /** The names of a bench differ in length. */
  lemma {:induction false} BenchLengths(m: BenchMetrics)
    ensures |BenchGauges(m)| == 3 && |Info(m)| == (if m.frappeVersion == "" then 0 else 1)
    ensures |BenchGauges(m)[0].name| == 10 && |BenchGauges(m)[1].name| == 18 && |BenchGauges(m)[2].name| == 16
    ensures forall it :: it in Info(m) ==> |it.name| == 4
  {
    hide IntText;
  }

  lemma {:induction false} QueueLengths(queues: seq<RedisQueue>)
    ensures forall it :: it in AllQueues(queues) ==> |it.name| == 17
  {
    hide IntText;
    if queues != [] {
      var n := |queues| - 1;
      QueueLengths(queues[..n]);
      assert AllQueues(queues) == AllQueues(queues[..n]) + QueueItems(queues[n]);
    }
  }

  /** No other item of a bench has the name of a gauge. */
  lemma {:induction false} BenchItemLengths(m: BenchMetrics)
    ensures |BenchItems(m)| >= 3 && BenchItems(m)[..3] == BenchGauges(m)
    ensures |BenchItems(m)[0].name| == 10 && |BenchItems(m)[1].name| == 18 && |BenchItems(m)[2].name| == 16
    ensures forall j :: 3 <= j < |BenchItems(m)| ==> |BenchItems(m)[j].name| == 4 || |BenchItems(m)[j].name| == 17
  {
    BenchLengths(m);
    QueueLengths(m.redisQueues);
    var items, gauges, info, queues := BenchItems(m), BenchGauges(m), Info(m), AllQueues(m.redisQueues);
    assert items == gauges + info + queues;
    hide BenchItems;
    hide BenchGauges;
    hide Info;
    hide AllQueues;
    forall j | 3 <= j < |items| ensures |items[j].name| == 4 || |items[j].name| == 17 {
      if j < 3 + |info| {
        assert items[j] == info[j - 3];
      } else {
        assert items[j] == queues[j - 3 - |info|];
      }
    }
  }

  /** The only record of its name, as the text of the bench has it. */
  ghost predicate BenchSays(records: seq<Record>, m: BenchMetrics, server: string, name: string, text: string) {
    Says(records, "frappe_bench_" + name, [Tag("server", server), Tag("bench", m.bench)], text, m.ts)
  }

  lemma {:induction false} SoleBenchGauge(m: BenchMetrics, server: string, i: nat)
    requires i < 3
    ensures |BenchGauges(m)| == 3
    ensures Sole(RecordsOf("frappe_bench_", TagsOfBench(m, server), BenchItems(m), m.ts),
                 RecordOf("frappe_bench_", TagsOfBench(m, server), BenchGauges(m)[i], m.ts))
  {
    BenchItemLengths(m);
    hide BenchItems;
    hide BenchGauges;
    hide RecordsOf;
    hide RecordOf;
    hide TagsOfBench;
    hide Sole;
    var items := BenchItems(m);
    assert items[i] == items[..3][i];
    SoleItem("frappe_bench_", TagsOfBench(m, server), items, i, m.ts);
  }

  lemma {:induction false} BenchGaugeSays(m: BenchMetrics, server: string, records: seq<Record>, i: nat, name: string, value: Number)
    requires BenchText(m, server, records) && i < 3 && |BenchGauges(m)| == 3 && BenchGauges(m)[i] == Gauge(name, value)
    ensures BenchSays(records, m, server, name, value)
  {
    hide BenchText;
    hide BenchItems;
    hide BenchGauges;
    hide RecordsOf;
    hide Sole;
    hide Says;
    BenchTextIs(m, server, records);
    SoleBenchGauge(m, server, i);
    var tags := TagsOfBench(m, server);
    assert tags + [] == tags;
    SoleSays(records, RecordOf("frappe_bench_", tags, BenchGauges(m)[i], m.ts));
  }

  /** In the decoded text of a bench each count is there once, under its own name. */
  lemma {:induction false} BenchSaid(m: BenchMetrics, server: string, records: seq<Record>)
    requires BenchText(m, server, records)
    ensures BenchSays(records, m, server, "apps_count", IntText(m.appsCount))
    ensures BenchSays(records, m, server, "supervisor_running", IntText(m.supervisorRun))
    ensures BenchSays(records, m, server, "supervisor_total", IntText(m.supervisorTotal))
  {
    hide IntText;
    hide BenchText;
    hide BenchSays;
    BenchGaugeSays(m, server, records, 0, "apps_count", Num(m.appsCount));
    BenchGaugeSays(m, server, records, 1, "supervisor_running", Num(m.supervisorRun));
    BenchGaugeSays(m, server, records, 2, "supervisor_total", Num(m.supervisorTotal));
  }

  lemma {:induction false} RecordsAppend(prefix: string, shared: seq<Tag>, a: seq<Item>, b: seq<Item>, ts: Int64)
    ensures RecordsOf(prefix, shared, a + b, ts) == RecordsOf(prefix, shared, a, ts) + RecordsOf(prefix, shared, b, ts)
  {
    hide RecordOf;
  }

  /** Items of another length of name than `n`, or all of the one name. */
  lemma {:induction false} OtherLengths(prefix: string, shared: seq<Tag>, items: seq<Item>, name: string, ts: Int64)
    requires forall it :: it in items ==> |it.name| != |name|
    ensures ByName(RecordsOf(prefix, shared, items, ts), prefix + name) == []
  {
    var records := RecordsOf(prefix, shared, items, ts);
    forall r | r in records ensures r.name != prefix + name {
      var i :| 0 <= i < |records| && r == records[i];
      assert items[i] in items;
    }
    NoneOfName(records, prefix + name);
  }

  lemma {:induction false} AllOfName(records: seq<Record>, name: string)
    requires forall r :: r in records ==> r.name == name
    ensures ByName(records, name) == records
  {
    if records != [] {
      var n := |records| - 1;
      assert records == records[..n] + [records[n]];
      AllOfName(records[..n], name);
    }
  }

  lemma {:induction false} QueuesAre(queues: seq<RedisQueue>)
    ensures |AllQueues(queues)| == |queues|
    ensures forall i :: 0 <= i < |queues| ==>
              AllQueues(queues)[i] == Item("redis_queue_depth", Some(Tag("queue", queues[i].name)), Num(queues[i].depth))
  {
    hide IntText;
    if queues != [] {
      QueuesAre(queues[..|queues| - 1]);
    }
  }

  /** The records of the three parts of a bench's text, under a name of one of them. */
  lemma {:induction false} BenchParts(m: BenchMetrics, server: string, records: seq<Record>, name: string)
    requires BenchText(m, server, records)
    ensures var tags := TagsOfBench(m, server);
            var full := "frappe_bench_" + name;
            ByName(records, full) ==
            ByName(RecordsOf("frappe_bench_", tags, BenchGauges(m), m.ts), full)
            + ByName(RecordsOf("frappe_bench_", tags, Info(m), m.ts), full)
            + ByName(RecordsOf("frappe_bench_", tags, AllQueues(m.redisQueues), m.ts), full)
  {
    BenchTextIs(m, server, records);
    hide BenchText;
    hide BenchGauges;
    hide Info;
    hide AllQueues;
    hide RecordsOf;
    hide ByName;
    var tags, full := TagsOfBench(m, server), "frappe_bench_" + name;
    RecordsAppend("frappe_bench_", tags, BenchGauges(m) + Info(m), AllQueues(m.redisQueues), m.ts);
    RecordsAppend("frappe_bench_", tags, BenchGauges(m), Info(m), m.ts);
    var a, b, c := RecordsOf("frappe_bench_", tags, BenchGauges(m), m.ts), RecordsOf("frappe_bench_", tags, Info(m), m.ts),
                   RecordsOf("frappe_bench_", tags, AllQueues(m.redisQueues), m.ts);
    ByNameAppend(a + b, c, full);
    ByNameAppend(a, b, full);
  }

  lemma {:induction false} GaugeLengths(m: BenchMetrics)
    ensures forall it :: it in BenchGauges(m) ==> |it.name| == 10 || |it.name| == 18 || |it.name| == 16
  {
    BenchLengths(m);
    assert forall it :: it in BenchGauges(m) ==> it == BenchGauges(m)[0] || it == BenchGauges(m)[1] || it == BenchGauges(m)[2];
    hide BenchGauges;
  }

  /** Each queue has one record, in order, with its own name and depth. */
  lemma {:induction false} QueuesSaid(m: BenchMetrics, server: string, records: seq<Record>)
    requires BenchText(m, server, records)
    ensures var found := ByName(records, "frappe_bench_" + "redis_queue_depth");
            && |found| == |m.redisQueues|
            && forall i :: 0 <= i < |found| ==>
                 && found[i].tags == [Tag("server", server), Tag("bench", m.bench), Tag("queue", m.redisQueues[i].name)]
                 && found[i].value == IntText(m.redisQueues[i].depth) && found[i].ts == m.ts
  {
    hide IntText;
    var tags := TagsOfBench(m, server);
    var rs := RecordsOf("frappe_bench_", tags, AllQueues(m.redisQueues), m.ts);
    hide AllQueues;
    hide BenchGauges;
    hide Info;
    hide RecordsOf;
    hide ByName;
    hide BenchText;
    QueueRecords(m, server);
    BenchParts(m, server, records, "redis_queue_depth");
    NoQueueBefore(m, server);
    AllOfName(rs, "frappe_bench_" + "redis_queue_depth");
    assert [] + [] + rs == rs;
  }

  lemma {:induction false} NoQueueBefore(m: BenchMetrics, server: string)
    ensures ByName(RecordsOf("frappe_bench_", TagsOfBench(m, server), BenchGauges(m), m.ts), "frappe_bench_" + "redis_queue_depth") == []
    ensures ByName(RecordsOf("frappe_bench_", TagsOfBench(m, server), Info(m), m.ts), "frappe_bench_" + "redis_queue_depth") == []
  {
    GaugeLengths(m);
    BenchLengths(m);
    hide BenchGauges;
    hide Info;
    hide ByName;
    hide RecordsOf;
    assert |"redis_queue_depth"| == 17;
    OtherLengths("frappe_bench_", TagsOfBench(m, server), BenchGauges(m), "redis_queue_depth", m.ts);
    OtherLengths("frappe_bench_", TagsOfBench(m, server), Info(m), "redis_queue_depth", m.ts);
  }

  lemma {:induction false} QueueRecords(m: BenchMetrics, server: string)
    ensures var rs := RecordsOf("frappe_bench_", TagsOfBench(m, server), AllQueues(m.redisQueues), m.ts);
            && |rs| == |m.redisQueues| && (forall r :: r in rs ==> r.name == "frappe_bench_" + "redis_queue_depth")
            && forall i :: 0 <= i < |rs| ==>
                 && rs[i].tags == [Tag("server", server), Tag("bench", m.bench), Tag("queue", m.redisQueues[i].name)]
                 && rs[i].value == IntText(m.redisQueues[i].depth) && rs[i].ts == m.ts
  {
    hide IntText;
    QueuesAre(m.redisQueues);
    hide AllQueues;
    var tags := TagsOfBench(m, server);
    forall q: RedisQueue ensures tags + [Tag("queue", q.name)] == [Tag("server", server), Tag("bench", m.bench), Tag("queue", q.name)] {
    }
  }

  /** The version record is there, with value 1, exactly when there is a version. */
  lemma {:induction false} VersionSaid(m: BenchMetrics, server: string, records: seq<Record>)
    requires BenchText(m, server, records)
    ensures ByName(records, "frappe_bench_" + "info") ==
            if m.frappeVersion == "" then []
            else [Record("frappe_bench_" + "info",
                         [Tag("server", server), Tag("bench", m.bench), Tag("frappe_version", m.frappeVersion)], "1", m.ts)]
  {
    hide BenchText;
    hide BenchGauges;
    hide Info;
    hide AllQueues;
    hide RecordsOf;
    hide ByName;
    BenchParts(m, server, records, "info");
    NoOtherInfo(m, server);
    InfoRecords(m, server);
    var rs := RecordsOf("frappe_bench_", TagsOfBench(m, server), Info(m), m.ts);
    AllOfName(rs, "frappe_bench_" + "info");
    assert [] + rs + [] == rs;
  }

  lemma {:induction false} NoOtherInfo(m: BenchMetrics, server: string)
    ensures ByName(RecordsOf("frappe_bench_", TagsOfBench(m, server), BenchGauges(m), m.ts), "frappe_bench_" + "info") == []
    ensures ByName(RecordsOf("frappe_bench_", TagsOfBench(m, server), AllQueues(m.redisQueues), m.ts), "frappe_bench_" + "info") == []
  {
    GaugeLengths(m);
    QueueLengths(m.redisQueues);
    hide BenchGauges;
    hide AllQueues;
    hide ByName;
    hide RecordsOf;
    assert |"info"| == 4;
    OtherLengths("frappe_bench_", TagsOfBench(m, server), BenchGauges(m), "info", m.ts);
    OtherLengths("frappe_bench_", TagsOfBench(m, server), AllQueues(m.redisQueues), "info", m.ts);
  }

  lemma {:induction false} InfoRecords(m: BenchMetrics, server: string)
    ensures RecordsOf("frappe_bench_", TagsOfBench(m, server), Info(m), m.ts) ==
            if m.frappeVersion == "" then []
            else [Record("frappe_bench_" + "info",
                         [Tag("server", server), Tag("bench", m.bench), Tag("frappe_version", m.frappeVersion)], "1", m.ts)]
  {
    OneIsOne();
    assert TagsOfBench(m, server) + [Tag("frappe_version", m.frappeVersion)] ==
      [Tag("server", server), Tag("bench", m.bench), Tag("frappe_version", m.frappeVersion)];
  }

  lemma {:induction false} OneIsOne()
    ensures IntText(1) == "1"
  {
  }

  /** In the decoded text of a site each of the three figures is there once, under its own name. */
  lemma {:induction false} SiteSaid(m: SiteMetrics, server: string, records: seq<Record>)
    requires '\n' !in server && '\n' !in m.bench && '\n' !in m.site
    requires Decode(Rendered(SiteRecords(m, server))) == Some(records)
    ensures var tags := [Tag("server", server), Tag("bench", m.bench), Tag("site", m.site)];
            && Says(records, "frappe_site_" + "http_status_code", tags, IntText(m.httpStatusCode), m.ts)
            && Says(records, "frappe_site_" + "http_response_ms", tags, m.httpResponseMs, m.ts)
            && Says(records, "frappe_site_" + "is_healthy", tags, IntText(m.isHealthy), m.ts)
  {
    hide IntText;
    SiteTextDecodes(m, server);
    hide Decode;
    hide Rendered;
    SiteNamesDiffer(m);
    hide RecordsOf;
    hide Sole;
    hide Says;
    var tags, items := [Tag("server", server), Tag("bench", m.bench), Tag("site", m.site)], SiteGauges(m);
    assert tags + [] == tags;
    SoleItem("frappe_site_", tags, items, 0, m.ts);
    SoleSays(records, RecordOf("frappe_site_", tags, items[0], m.ts));
    SoleItem("frappe_site_", tags, items, 1, m.ts);
    SoleSays(records, RecordOf("frappe_site_", tags, items[1], m.ts));
    SoleItem("frappe_site_", tags, items, 2, m.ts);
    SoleSays(records, RecordOf("frappe_site_", tags, items[2], m.ts));
  }

  lemma {:induction false} SiteNamesDiffer(m: SiteMetrics)
    ensures |SiteGauges(m)| == 3
    ensures forall i, j :: 0 <= i < 3 && 0 <= j < 3 && i != j ==> SiteGauges(m)[i].name != SiteGauges(m)[j].name
  {
    hide IntText;
    assert SiteGauges(m)[0].name[5] == 's' && SiteGauges(m)[1].name[5] == 'r' && |SiteGauges(m)[2].name| == 10;
  }
}
