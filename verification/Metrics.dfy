/** The three LineProtocol methods (internal/metrics/lineproto.go:18-149). */
module Metrics {
  import opened LineProtocol
  import opened Text

  datatype DiskMount = DiskMount(mount: string, usedBytes: int, totalBytes: int)
  datatype NetIface = NetIface(name: string, rxBytes: int, txBytes: int)
  datatype RedisQueue = RedisQueue(name: string, depth: int)

  datatype ServerMetrics = ServerMetrics(
    ts: Int64,
    cpuUser: int, cpuNice: int, cpuSystem: int, cpuIdle: int, cpuIOWait: int, cpuIRQ: int, cpuSoftIRQ: int, cpuSteal: int,
    memTotalKB: int, memAvailableKB: int, memFreeKB: int, memBuffersKB: int, memCachedKB: int, swapTotalKB: int, swapFreeKB: int,
    load1: Number, load5: Number, load15: Number, uptimeSeconds: Number,
    disks: seq<DiskMount>, net: seq<NetIface>)

  datatype BenchMetrics = BenchMetrics(
    ts: Int64, bench: string, frappeVersion: string,
    appsCount: int, supervisorRun: int, supervisorTotal: int, redisQueues: seq<RedisQueue>)

  datatype SiteMetrics = SiteMetrics(
    ts: Int64, bench: string, site: string, httpStatusCode: int, httpResponseMs: Number, isHealthy: int)

  function Num(n: int): Number {
    IntTextChars(n);
    IntText(n)
  }

  const SERVER := "frappe_server_"
  const BENCH := "frappe_bench_"
  const SITE := "frappe_site_"

  // ------------------------------------------------------------- what is emitted

  /** The arguments of one call of emit: a name, a tag of its own, and a value. */
  datatype Item = Item(name: string, extra: Option<Tag>, value: Number)

  function Gauge(name: string, value: Number): Item {
    Item(name, None, value)
  }

  function CpuGauges(m: ServerMetrics): seq<Item> {
    [Gauge("cpu_user", Num(m.cpuUser)), Gauge("cpu_nice", Num(m.cpuNice)), Gauge("cpu_system", Num(m.cpuSystem)),
     Gauge("cpu_idle", Num(m.cpuIdle)), Gauge("cpu_iowait", Num(m.cpuIOWait)), Gauge("cpu_irq", Num(m.cpuIRQ)),
     Gauge("cpu_softirq", Num(m.cpuSoftIRQ)), Gauge("cpu_steal", Num(m.cpuSteal))]
  }

  /** Kibibytes become bytes. */
  function MemoryGauges(m: ServerMetrics): seq<Item> {
    [Gauge("mem_total_bytes", Num(m.memTotalKB * 1024)), Gauge("mem_available_bytes", Num(m.memAvailableKB * 1024)),
     Gauge("mem_free_bytes", Num(m.memFreeKB * 1024)), Gauge("mem_buffers_bytes", Num(m.memBuffersKB * 1024)),
     Gauge("mem_cached_bytes", Num(m.memCachedKB * 1024)), Gauge("swap_total_bytes", Num(m.swapTotalKB * 1024)),
     Gauge("swap_free_bytes", Num(m.swapFreeKB * 1024))]
  }

  function LoadGauges(m: ServerMetrics): seq<Item> {
    [Gauge("load_1m", m.load1), Gauge("load_5m", m.load5), Gauge("load_15m", m.load15),
     Gauge("uptime_seconds", m.uptimeSeconds)]
  }

  function ServerGauges(m: ServerMetrics): seq<Item> {
    CpuGauges(m) + MemoryGauges(m) + LoadGauges(m)
  }

  function DiskItems(d: DiskMount): seq<Item> {
    var mount := Some(Tag("mount", d.mount));
    [Item("disk_used_bytes", mount, Num(d.usedBytes)), Item("disk_total_bytes", mount, Num(d.totalBytes))]
  }

  function NetItems(n: NetIface): seq<Item> {
    var iface := Some(Tag("iface", n.name));
    [Item("net_rx_bytes", iface, Num(n.rxBytes)), Item("net_tx_bytes", iface, Num(n.txBytes))]
  }

  function QueueItems(q: RedisQueue): seq<Item> {
    [Item("redis_queue_depth", Some(Tag("queue", q.name)), Num(q.depth))]
  }

  function AllDisks(disks: seq<DiskMount>): seq<Item> {
    if disks == [] then [] else AllDisks(disks[..|disks| - 1]) + DiskItems(disks[|disks| - 1])
  }

  function AllNets(net: seq<NetIface>): seq<Item> {
    if net == [] then [] else AllNets(net[..|net| - 1]) + NetItems(net[|net| - 1])
  }

  function AllQueues(queues: seq<RedisQueue>): seq<Item> {
    if queues == [] then [] else AllQueues(queues[..|queues| - 1]) + QueueItems(queues[|queues| - 1])
  }

  function BenchGauges(m: BenchMetrics): seq<Item> {
    [Gauge("apps_count", Num(m.appsCount)), Gauge("supervisor_running", Num(m.supervisorRun)),
     Gauge("supervisor_total", Num(m.supervisorTotal))]
  }

  function Info(m: BenchMetrics): seq<Item> {
    if m.frappeVersion != "" then [Item("info", Some(Tag("frappe_version", m.frappeVersion)), Num(1))] else []
  }

  function SiteGauges(m: SiteMetrics): seq<Item> {
    [Gauge("http_status_code", Num(m.httpStatusCode)), Gauge("http_response_ms", m.httpResponseMs),
     Gauge("is_healthy", Num(m.isHealthy))]
  }

  function ServerItems(m: ServerMetrics): seq<Item> {
    ServerGauges(m) + AllDisks(m.disks) + AllNets(m.net)
  }

  function BenchItems(m: BenchMetrics): seq<Item> {
    BenchGauges(m) + Info(m) + AllQueues(m.redisQueues)
  }

  // --------------------------------------------------- what each value stands for

  function ExtraTags(extra: Option<Tag>): seq<Tag> {
    if extra.None? then [] else [extra.value]
  }

  function RecordOf(prefix: string, shared: seq<Tag>, it: Item, ts: Int64): Record {
    Record(prefix + it.name, shared + ExtraTags(it.extra), it.value, ts)
  }

  function RecordsOf(prefix: string, shared: seq<Tag>, items: seq<Item>, ts: Int64): seq<Record> {
    seq(|items|, i requires 0 <= i < |items| => RecordOf(prefix, shared, items[i], ts))
  }

  function ServerRecords(m: ServerMetrics, server: string): seq<Record> {
    RecordsOf(SERVER, [Tag("server", server)], ServerItems(m), m.ts)
  }

  function BenchRecords(m: BenchMetrics, server: string): seq<Record> {
    RecordsOf(BENCH, [Tag("server", server), Tag("bench", m.bench)], BenchItems(m), m.ts)
  }

  function SiteRecords(m: SiteMetrics, server: string): seq<Record> {
    RecordsOf(SITE, [Tag("server", server), Tag("bench", m.bench), Tag("site", m.site)], SiteGauges(m), m.ts)
  }

  // ------------------------------------------------------------------ the emitters

  /** The emit closure: appends one line to the builder's contents. */
  method Emit(b: string, prefix: string, tags: string, name: string, extra: string, value: Number, ts: Int64,
              ghost records: seq<Record>, ghost shared: seq<Tag>, ghost more: seq<Tag>)
    returns (r: string)
    requires shared != [] && tags == TagsText(shared)[1..]
    requires |more| <= 1 && extra == (if more == [] then "" else TagText(more[0]))
    requires b == Rendered(records)
    ensures r == Rendered(records + [Record(prefix + name, shared + more, value, ts)])
  {
    hide IntText;
    hide Rendered;
    hide TagsText;
    hide TagText;
    r := b + EmittedLine(prefix, tags, name, extra, value, ts);
    EmittedIsRendered(records, prefix, shared, name, more, value, ts);
  }

  function ExtraText(extra: Option<Tag>): string {
    if extra.None? then "" else extra.value.key + "=" + Escape(extra.value.value)
  }

  lemma {:induction false} ExtraTextIs(extra: Option<Tag>)
    ensures ExtraText(extra) == if ExtraTags(extra) == [] then "" else TagText(ExtraTags(extra)[0])
  {
  }

  /** A run of emit calls. */
  method EmitAll(b: string, prefix: string, tags: string, items: seq<Item>, ts: Int64,
                 ghost before: seq<Item>, ghost shared: seq<Tag>)
    returns (r: string)
    requires shared != [] && tags == TagsText(shared)[1..] && b == Rendered(RecordsOf(prefix, shared, before, ts))
    ensures r == Rendered(RecordsOf(prefix, shared, before + items, ts))
  {
    hide Rendered;
    hide TagsText;
    hide ExtraTags;
    hide ExtraText;
    hide TagText;
    r := b;
    assert before + items[..0] == before;
    for i := 0 to |items|
      invariant r == Rendered(RecordsOf(prefix, shared, before + items[..i], ts))
    {
      var it := items[i];
      ghost var records := RecordsOf(prefix, shared, before + items[..i], ts);
      ExtraTextIs(it.extra);
      OneExtra(it.extra);
      r := Emit(r, prefix, tags, it.name, ExtraText(it.extra), it.value, ts, records, shared, ExtraTags(it.extra));
      assert before + items[..i + 1] == before + items[..i] + [it];
      assert RecordsOf(prefix, shared, before + items[..i + 1], ts) == records + [RecordOf(prefix, shared, it, ts)];
    }
    assert before + items[..|items|] == before + items;
  }

  lemma {:induction false} OneExtra(extra: Option<Tag>)
    ensures |ExtraTags(extra)| <= 1
  {
  }

  lemma {:induction false} NothingRendered(prefix: string, shared: seq<Tag>, ts: Int64)
    ensures Rendered(RecordsOf(prefix, shared, [], ts)) == ""
  {
  }

  /** ServerMetrics.LineProtocol. */
  method ServerLineProtocol(m: ServerMetrics, serverLabel: string) returns (text: string)
    ensures text == Rendered(ServerRecords(m, serverLabel))
  {
    hide RecordsOf;
    hide ServerGauges;
    hide DiskItems;
    hide NetItems;
    hide Escape;
    var tags := "server=" + Escape(serverLabel);
    ghost var shared := [Tag("server", serverLabel)];
    OneTagText("server", serverLabel);
    NothingRendered(SERVER, shared, m.ts);
    hide Rendered;
    hide TagsText;
    text := EmitAll("", SERVER, tags, ServerGauges(m), m.ts, [], shared);
    ghost var gauges := ServerGauges(m);
    assert [] + gauges == gauges == gauges + AllDisks([]);
    for i := 0 to |m.disks|
      invariant text == Rendered(RecordsOf(SERVER, shared, gauges + AllDisks(m.disks[..i]), m.ts))
    {
      text := EmitAll(text, SERVER, tags, DiskItems(m.disks[i]), m.ts, gauges + AllDisks(m.disks[..i]), shared);
      assert m.disks[..i + 1][..i] == m.disks[..i];
      assert gauges + AllDisks(m.disks[..i]) + DiskItems(m.disks[i]) == gauges + AllDisks(m.disks[..i + 1]);
    }
    assert m.disks[..|m.disks|] == m.disks;
    ghost var most := gauges + AllDisks(m.disks);
    assert most == most + AllNets([]);
    for i := 0 to |m.net|
      invariant text == Rendered(RecordsOf(SERVER, shared, most + AllNets(m.net[..i]), m.ts))
    {
      text := EmitAll(text, SERVER, tags, NetItems(m.net[i]), m.ts, most + AllNets(m.net[..i]), shared);
      assert m.net[..i + 1][..i] == m.net[..i];
      assert most + AllNets(m.net[..i]) + NetItems(m.net[i]) == most + AllNets(m.net[..i + 1]);
    }
    assert m.net[..|m.net|] == m.net;
  }

  lemma {:induction false} TagTextIs(key: string, value: string)
    ensures TagText(Tag(key, value)) == key + "=" + Escape(value)
  {
  }

  lemma {:induction false} OneTagText(key: string, value: string)
    ensures TagsText([Tag(key, value)])[1..] == key + "=" + Escape(value)
  {
    assert [Tag(key, value)][1..] == [];
  }

  lemma {:induction false} TagsTextCons(key: string, value: string, more: seq<Tag>)
    requires more != []
    ensures TagsText([Tag(key, value)] + more)[1..] == key + "=" + Escape(value) + ([','] + TagsText(more)[1..])
  {
    hide TagText;
    hide Escape;
    var t := Tag(key, value);
    TagTextIs(key, value);
    FirstTag(t, more);
    StartsWithComma(more);
  }

  lemma {:induction false} FirstTag(t: Tag, more: seq<Tag>)
    ensures TagsText([t] + more)[1..] == TagText(t) + TagsText(more)
  {
    hide TagText;
    assert ([t] + more)[1..] == more;
    assert TagsText([t] + more) == [','] + TagText(t) + TagsText(more);
  }

  lemma {:induction false} StartsWithComma(tags: seq<Tag>)
    requires tags != []
    ensures TagsText(tags) == [','] + TagsText(tags)[1..]
  {
    hide TagText;
  }

  /** BenchMetrics.LineProtocol. */
  method BenchLineProtocol(m: BenchMetrics, serverLabel: string) returns (text: string)
    ensures text == Rendered(BenchRecords(m, serverLabel))
  {
    hide RecordsOf;
    hide BenchGauges;
    hide QueueItems;
    hide Escape;
    var tags := "server=" + Escape(serverLabel) + ",bench=" + Escape(m.bench);
    ghost var shared := [Tag("server", serverLabel), Tag("bench", m.bench)];
    BenchTags(serverLabel, m.bench);
    NothingRendered(BENCH, shared, m.ts);
    hide Rendered;
    hide TagsText;
    text := EmitAll("", BENCH, tags, BenchGauges(m), m.ts, [], shared);
    assert [] + BenchGauges(m) == BenchGauges(m) == BenchGauges(m) + [];
    if m.frappeVersion != "" {
      text := EmitAll(text, BENCH, tags, Info(m), m.ts, BenchGauges(m), shared);
    }
    ghost var most := BenchGauges(m) + Info(m);
    assert most == most + AllQueues([]);
    for i := 0 to |m.redisQueues|
      invariant text == Rendered(RecordsOf(BENCH, shared, most + AllQueues(m.redisQueues[..i]), m.ts))
    {
      text := EmitAll(text, BENCH, tags, QueueItems(m.redisQueues[i]), m.ts, most + AllQueues(m.redisQueues[..i]), shared);
      assert m.redisQueues[..i + 1][..i] == m.redisQueues[..i];
      assert most + AllQueues(m.redisQueues[..i]) + QueueItems(m.redisQueues[i]) == most + AllQueues(m.redisQueues[..i + 1]);
    }
    assert m.redisQueues[..|m.redisQueues|] == m.redisQueues;
  }

  lemma {:induction false} BenchTags(server: string, bench: string)
    ensures TagsText([Tag("server", server), Tag("bench", bench)])[1..] == "server=" + Escape(server) + ",bench=" + Escape(bench)
  {
    hide Escape;
    hide TagsText;
    TagsTextCons("server", server, [Tag("bench", bench)]);
    OneTagText("bench", bench);
    assert [Tag("server", server)] + [Tag("bench", bench)] == [Tag("server", server), Tag("bench", bench)];
    assert [','] + ("bench" + "=" + Escape(bench)) == ",bench=" + Escape(bench);
  }

  /** SiteMetrics.LineProtocol. */
  method SiteLineProtocol(m: SiteMetrics, serverLabel: string) returns (text: string)
    ensures text == Rendered(SiteRecords(m, serverLabel))
  {
    hide RecordsOf;
    hide SiteGauges;
    hide Escape;
    var tags := "server=" + Escape(serverLabel) + ",bench=" + Escape(m.bench) + ",site=" + Escape(m.site);
    ghost var shared := [Tag("server", serverLabel), Tag("bench", m.bench), Tag("site", m.site)];
    SiteTags(serverLabel, m.bench, m.site);
    NothingRendered(SITE, shared, m.ts);
    hide Rendered;
    hide TagsText;
    text := EmitAll("", SITE, tags, SiteGauges(m), m.ts, [], shared);
    assert [] + SiteGauges(m) == SiteGauges(m);
  }

  lemma {:induction false} SiteTags(server: string, bench: string, site: string)
    ensures TagsText([Tag("server", server), Tag("bench", bench), Tag("site", site)])[1..]
         == "server=" + Escape(server) + ",bench=" + Escape(bench) + ",site=" + Escape(site)
  {
    hide Escape;
    hide TagsText;
    var more := [Tag("bench", bench), Tag("site", site)];
    TagsTextCons("server", server, more);
    TagsTextCons("bench", bench, [Tag("site", site)]);
    OneTagText("site", site);
    assert [Tag("server", server)] + more == [Tag("server", server), Tag("bench", bench), Tag("site", site)];
    assert [Tag("bench", bench)] + [Tag("site", site)] == more;
    assert [','] + ("bench" + "=" + Escape(bench) + ([','] + ("site" + "=" + Escape(site))))
        == ",bench=" + Escape(bench) + ",site=" + Escape(site);
  }

  // -------------------------------------------------------------------- main results

  ghost predicate CleanTags(tags: seq<Tag>) {
    forall t :: t in tags ==> '\n' !in t.value
  }

  /** Nothing in the name or the key of the tag to escape. */
  ghost predicate PlainItem(it: Item) {
    PlainToken(it.name) && (it.extra.Some? ==> PlainToken(it.extra.value.key))
  }

  lemma {:induction false} ItemIsNamed(prefix: string, shared: seq<Tag>, it: Item, ts: Int64)
    requires PlainToken(prefix) && PlainItem(it) && forall t :: t in shared ==> PlainToken(t.key)
    ensures WellNamed(RecordOf(prefix, shared, it, ts))
    ensures OneLined(RecordOf(prefix, shared, it, ts)) <==> CleanTags(shared + ExtraTags(it.extra))
  {
  }

  ghost predicate AllPlain(items: seq<Item>) {
    forall it :: it in items ==> PlainItem(it)
  }

  ghost predicate AllClean(shared: seq<Tag>, items: seq<Item>) {
    forall it :: it in items ==> CleanTags(shared + ExtraTags(it.extra))
  }

  lemma {:induction false} BothParts(shared: seq<Tag>, a: seq<Item>, b: seq<Item>)
    ensures AllPlain(a + b) <==> AllPlain(a) && AllPlain(b)
    ensures AllClean(shared, a + b) <==> AllClean(shared, a) && AllClean(shared, b)
  {
    hide PlainItem;
    hide CleanTags;
    assert forall it :: it in a + b <==> it in a || it in b;
  }

  /** A reader of an emitted text gets back exactly the emitted records, if and only if no tag value
      has a newline. */
  lemma {:induction false} ItemsDecode(prefix: string, shared: seq<Tag>, items: seq<Item>, ts: Int64)
    requires PlainToken(prefix) && (forall t :: t in shared ==> PlainToken(t.key)) && AllPlain(items)
    ensures Decode(Rendered(RecordsOf(prefix, shared, items, ts))) == Some(RecordsOf(prefix, shared, items, ts)) <==>
            AllClean(shared, items)
  {
    hide PlainToken;
    hide PlainItem;
    hide WellNamed;
    hide OneLined;
    hide CleanTags;
    hide Rendered;
    hide Decode;
    hide RecordOf;
    var records := RecordsOf(prefix, shared, items, ts);
    forall i | 0 <= i < |items|
      ensures WellNamed(records[i]) && (OneLined(records[i]) <==> CleanTags(shared + ExtraTags(items[i].extra)))
    {
      assert items[i] in items;
      ItemIsNamed(prefix, shared, items[i], ts);
    }
    assert forall i :: 0 <= i < |items| ==> records[i] in records && items[i] in items;
    DecodeUndoesRendering(records);
  }

  lemma {:induction false} CpuNames()
    ensures PlainToken("cpu_user") && PlainToken("cpu_nice") && PlainToken("cpu_system") && PlainToken("cpu_idle")
  {
  }

  lemma {:induction false} OtherCpuNames()
    ensures PlainToken("cpu_iowait") && PlainToken("cpu_irq") && PlainToken("cpu_softirq") && PlainToken("cpu_steal")
  {
  }

  lemma {:induction false} MemoryNames()
    ensures PlainToken("mem_total_bytes") && PlainToken("mem_available_bytes") && PlainToken("mem_free_bytes")
  {
  }

  lemma {:induction false} OtherMemoryNames()
    ensures PlainToken("mem_buffers_bytes") && PlainToken("mem_cached_bytes")
  {
  }

  lemma {:induction false} SwapNames()
    ensures PlainToken("swap_total_bytes") && PlainToken("swap_free_bytes")
  {
  }

  lemma {:induction false} LoadNames()
    ensures PlainToken("load_1m") && PlainToken("load_5m") && PlainToken("load_15m") && PlainToken("uptime_seconds")
  {
  }

  lemma {:induction false} DiskNames()
    ensures PlainToken("disk_used_bytes") && PlainToken("disk_total_bytes") && PlainToken("mount")
  {
  }

  lemma {:induction false} NetNames()
    ensures PlainToken("net_rx_bytes") && PlainToken("net_tx_bytes") && PlainToken("iface")
  {
  }

  lemma {:induction false} BenchNames()
    ensures PlainToken("apps_count") && PlainToken("supervisor_running") && PlainToken("supervisor_total")
  {
  }

  lemma {:induction false} OtherBenchNames()
    ensures PlainToken("info") && PlainToken("frappe_version") && PlainToken("redis_queue_depth") && PlainToken("queue")
  {
  }

  lemma {:induction false} SiteNames()
    ensures PlainToken("http_status_code") && PlainToken("http_response_ms") && PlainToken("is_healthy")
  {
  }

  lemma {:induction false} TagNames()
    ensures PlainToken("server") && PlainToken("bench") && PlainToken("site")
  {
  }

  lemma {:induction false} Prefixes()
    ensures PlainToken(SERVER) && PlainToken(BENCH) && PlainToken(SITE)
  {
  }

  /** Items without a tag of their own. */
  lemma {:induction false} GaugesAreClean(shared: seq<Tag>, items: seq<Item>)
    requires items != [] && forall it :: it in items ==> it.extra == None
    ensures AllClean(shared, items) <==> CleanTags(shared)
  {
    hide CleanTags;
    assert items[0] in items && shared + [] == shared;
  }

  lemma {:induction false} CpuPlain(m: ServerMetrics)
    ensures AllPlain(CpuGauges(m)) && forall it :: it in CpuGauges(m) ==> it.extra == None
  {
    CpuNames();
    OtherCpuNames();
    hide PlainToken;
    hide IntText;
  }

  lemma {:induction false} MemoryPlain(m: ServerMetrics)
    ensures AllPlain(MemoryGauges(m)) && forall it :: it in MemoryGauges(m) ==> it.extra == None
  {
    MemoryNames();
    OtherMemoryNames();
    SwapNames();
    hide PlainToken;
    hide IntText;
  }

  lemma {:induction false} LoadPlain(m: ServerMetrics)
    ensures AllPlain(LoadGauges(m)) && forall it :: it in LoadGauges(m) ==> it.extra == None
  {
    LoadNames();
    hide PlainToken;
  }

  lemma {:induction false} GaugesPlain(m: ServerMetrics, shared: seq<Tag>)
    ensures AllPlain(ServerGauges(m)) && (AllClean(shared, ServerGauges(m)) <==> CleanTags(shared))
    ensures |ServerGauges(m)| == 19
  {
    CpuPlain(m);
    MemoryPlain(m);
    LoadPlain(m);
    hide IntText;
    assert |CpuGauges(m)| == 8 && |MemoryGauges(m)| == 7 && |LoadGauges(m)| == 4;
    hide CpuGauges;
    hide MemoryGauges;
    hide LoadGauges;
    hide AllPlain;
    hide AllClean;
    BothParts(shared, CpuGauges(m), MemoryGauges(m));
    BothParts(shared, CpuGauges(m) + MemoryGauges(m), LoadGauges(m));
    GaugesAreClean(shared, ServerGauges(m));
  }

  lemma {:induction false} DisksPlain(disks: seq<DiskMount>, shared: seq<Tag>)
    ensures AllPlain(AllDisks(disks))
    ensures CleanTags(shared) ==> (AllClean(shared, AllDisks(disks)) <==> forall d :: d in disks ==> '\n' !in d.mount)
  {
    DiskNames();
    hide PlainToken;
    hide CleanTags;
    hide IntText;
    if disks != [] {
      var k := |disks| - 1;
      DisksPlain(disks[..k], shared);
      assert disks == disks[..k] + [disks[k]];
      var last := DiskItems(disks[k]);
      assert AllPlain(last) && last[0] in last;
      CleanMore(shared, "mount", disks[k].mount);
      BothParts(shared, AllDisks(disks[..k]), last);
    }
  }

  lemma {:induction false} NetsPlain(net: seq<NetIface>, shared: seq<Tag>)
    ensures AllPlain(AllNets(net))
    ensures CleanTags(shared) ==> (AllClean(shared, AllNets(net)) <==> forall n :: n in net ==> '\n' !in n.name)
  {
    NetNames();
    hide PlainToken;
    hide CleanTags;
    hide IntText;
    if net != [] {
      var k := |net| - 1;
      NetsPlain(net[..k], shared);
      assert net == net[..k] + [net[k]];
      var last := NetItems(net[k]);
      assert AllPlain(last) && last[0] in last;
      CleanMore(shared, "iface", net[k].name);
      BothParts(shared, AllNets(net[..k]), last);
    }
  }

  lemma {:induction false} QueuesPlain(queues: seq<RedisQueue>, shared: seq<Tag>)
    ensures AllPlain(AllQueues(queues))
    ensures CleanTags(shared) ==> (AllClean(shared, AllQueues(queues)) <==> forall q :: q in queues ==> '\n' !in q.name)
  {
    OtherBenchNames();
    hide PlainToken;
    hide CleanTags;
    hide IntText;
    if queues != [] {
      var k := |queues| - 1;
      QueuesPlain(queues[..k], shared);
      assert queues == queues[..k] + [queues[k]];
      var last := QueueItems(queues[k]);
      assert AllPlain(last) && last[0] in last;
      CleanMore(shared, "queue", queues[k].name);
      BothParts(shared, AllQueues(queues[..k]), last);
    }
  }

  lemma {:induction false} CleanMore(shared: seq<Tag>, key: string, value: string)
    ensures CleanTags(shared + [Tag(key, value)]) <==> CleanTags(shared) && '\n' !in value
    ensures CleanTags(shared + []) <==> CleanTags(shared)
  {
    var more := shared + [Tag(key, value)];
    assert forall t :: t in more <==> t in shared || t == Tag(key, value);
    assert shared + [] == shared;
  }

  lemma {:induction false} ServerItemsPlain(m: ServerMetrics, shared: seq<Tag>)
    ensures AllPlain(ServerItems(m))
    ensures AllClean(shared, ServerItems(m)) <==>
            && CleanTags(shared)
            && (forall d :: d in m.disks ==> '\n' !in d.mount)
            && (forall n :: n in m.net ==> '\n' !in n.name)
  {
    hide AllPlain;
    hide AllClean;
    hide CleanTags;
    hide ServerGauges;
    hide AllDisks;
    hide AllNets;
    GaugesPlain(m, shared);
    DisksPlain(m.disks, shared);
    NetsPlain(m.net, shared);
    BothParts(shared, ServerGauges(m), AllDisks(m.disks));
    BothParts(shared, ServerGauges(m) + AllDisks(m.disks), AllNets(m.net));
  }

  lemma {:induction false} ServerTagsPlain(server: string)
    ensures var shared := [Tag("server", server)];
            (forall t :: t in shared ==> PlainToken(t.key)) && (CleanTags(shared) <==> '\n' !in server)
  {
    var shared := [Tag("server", server)];
    TagNames();
    hide PlainToken;
    assert shared[0] in shared;
  }

  // -------------------------------------------------------------------- main results

  /** A reader of the server text gets back exactly the emitted records, if and only if the server
      label, the mounts and the interface names are free of newlines. */
  lemma {:induction false} ServerTextDecodes(m: ServerMetrics, server: string)
    ensures Decode(Rendered(ServerRecords(m, server))) == Some(ServerRecords(m, server))
       <==> (&& '\n' !in server
             && (forall d :: d in m.disks ==> '\n' !in d.mount)
             && (forall n :: n in m.net ==> '\n' !in n.name))
  {
    hide PlainToken;
    hide AllPlain;
    hide AllClean;
    hide CleanTags;
    hide ServerItems;
    hide Rendered;
    hide Decode;
    hide RecordsOf;
    Prefixes();
    ServerTagsPlain(server);
    ServerItemsPlain(m, [Tag("server", server)]);
    ItemsDecode(SERVER, [Tag("server", server)], ServerItems(m), m.ts);
  }

  /** The items of each disk and interface among those of the server. */
  lemma {:induction false} ServerItemsAt(m: ServerMetrics)
    ensures var items, d := ServerItems(m), 19 + 2 * |m.disks|;
            && |items| == d + 2 * |m.net|
            && (forall i :: 0 <= i < |m.disks| ==> items[19 + 2 * i] == DiskItems(m.disks[i])[0])
            && (forall i :: 0 <= i < |m.disks| ==> items[19 + 2 * i + 1] == DiskItems(m.disks[i])[1])
            && (forall j :: 0 <= j < |m.net| ==> items[d + 2 * j] == NetItems(m.net[j])[0])
            && (forall j :: 0 <= j < |m.net| ==> items[d + 2 * j + 1] == NetItems(m.net[j])[1])
  {
    hide IntText;
    hide ServerGauges;
    hide AllDisks;
    hide AllNets;
    hide AllPlain;
    hide AllClean;
    GaugesPlain(m, []);
    DisksAt(m.disks);
    NetsAt(m.net);
    var gauges, disks, net := ServerGauges(m), AllDisks(m.disks), AllNets(m.net);
    assert forall k :: 0 <= k < |disks| ==> ServerItems(m)[19 + k] == disks[k];
    assert forall k :: 0 <= k < |net| ==> ServerItems(m)[19 + |disks| + k] == net[k];
  }

  /** Where each disk and interface is in the decoded records. */
  lemma {:induction false} ServerRecordsAt(m: ServerMetrics, server: string)
    ensures var shared := [Tag("server", server)];
            var rs, d := ServerRecords(m, server), 19 + 2 * |m.disks|;
            && |rs| == d + 2 * |m.net|
            && (forall i :: 0 <= i < |m.disks| ==> rs[19 + 2 * i] == UsedRecord(m.disks[i], shared, m.ts))
            && (forall i :: 0 <= i < |m.disks| ==> rs[19 + 2 * i + 1] == TotalRecord(m.disks[i], shared, m.ts))
            && (forall j :: 0 <= j < |m.net| ==> rs[d + 2 * j] == RxRecord(m.net[j], shared, m.ts))
            && (forall j :: 0 <= j < |m.net| ==> rs[d + 2 * j + 1] == TxRecord(m.net[j], shared, m.ts))
  {
    hide IntText;
    hide ServerItems;
    ServerItemsAt(m);
  }

  lemma {:induction false} DisksAt(disks: seq<DiskMount>)
    ensures |AllDisks(disks)| == 2 * |disks|
    ensures forall i :: 0 <= i < |disks| ==>
              AllDisks(disks)[2 * i] == DiskItems(disks[i])[0] && AllDisks(disks)[2 * i + 1] == DiskItems(disks[i])[1]
  {
    hide IntText;
    if disks != [] {
      DisksAt(disks[..|disks| - 1]);
    }
  }

  lemma {:induction false} NetsAt(net: seq<NetIface>)
    ensures |AllNets(net)| == 2 * |net|
    ensures forall i :: 0 <= i < |net| ==>
              AllNets(net)[2 * i] == NetItems(net[i])[0] && AllNets(net)[2 * i + 1] == NetItems(net[i])[1]
  {
    hide IntText;
    if net != [] {
      NetsAt(net[..|net| - 1]);
    }
  }

  lemma {:induction false} QueuesAt(queues: seq<RedisQueue>)
    ensures |AllQueues(queues)| == |queues|
  {
    if queues != [] {
      QueuesAt(queues[..|queues| - 1]);
    }
  }

  function UsedRecord(d: DiskMount, shared: seq<Tag>, ts: Int64): Record {
    Record(SERVER + "disk_used_bytes", shared + [Tag("mount", d.mount)], Num(d.usedBytes), ts)
  }

  function TotalRecord(d: DiskMount, shared: seq<Tag>, ts: Int64): Record {
    Record(SERVER + "disk_total_bytes", shared + [Tag("mount", d.mount)], Num(d.totalBytes), ts)
  }

  function RxRecord(n: NetIface, shared: seq<Tag>, ts: Int64): Record {
    Record(SERVER + "net_rx_bytes", shared + [Tag("iface", n.name)], Num(n.rxBytes), ts)
  }

  function TxRecord(n: NetIface, shared: seq<Tag>, ts: Int64): Record {
    Record(SERVER + "net_tx_bytes", shared + [Tag("iface", n.name)], Num(n.txBytes), ts)
  }

  lemma {:induction false} BenchPlain(m: BenchMetrics, shared: seq<Tag>)
    ensures AllPlain(BenchGauges(m)) && (AllClean(shared, BenchGauges(m)) <==> CleanTags(shared))
  {
    BenchNames();
    hide PlainToken;
    hide IntText;
    hide CleanTags;
    hide AllClean;
    GaugesAreClean(shared, BenchGauges(m));
  }

  lemma {:induction false} InfoPlain(m: BenchMetrics, shared: seq<Tag>)
    ensures AllPlain(Info(m)) && (CleanTags(shared) ==> (AllClean(shared, Info(m)) <==> '\n' !in m.frappeVersion))
  {
    OtherBenchNames();
    hide PlainToken;
    hide CleanTags;
    hide IntText;
    CleanMore(shared, "frappe_version", m.frappeVersion);
    assert Info(m) != [] ==> Info(m)[0] in Info(m);
  }

  lemma {:induction false} BenchTagsPlain(server: string, bench: string)
    ensures var shared := [Tag("server", server), Tag("bench", bench)];
            && (forall t :: t in shared ==> PlainToken(t.key))
            && (CleanTags(shared) <==> '\n' !in server && '\n' !in bench)
  {
    var shared := [Tag("server", server), Tag("bench", bench)];
    TagNames();
    hide PlainToken;
    assert shared[0] in shared && shared[1] in shared;
  }

  /** The same for a bench; its version is a tag, absent when it is empty. */
  lemma {:induction false} BenchTextDecodes(m: BenchMetrics, server: string)
    ensures Decode(Rendered(BenchRecords(m, server))) == Some(BenchRecords(m, server))
       <==> (&& '\n' !in server && '\n' !in m.bench && '\n' !in m.frappeVersion
             && (forall q :: q in m.redisQueues ==> '\n' !in q.name))
    ensures |BenchRecords(m, server)| == 3 + (if m.frappeVersion == "" then 0 else 1) + |m.redisQueues|
  {
    hide PlainToken;
    hide IntText;
    var shared := [Tag("server", server), Tag("bench", m.bench)];
    Prefixes();
    BenchTagsPlain(server, m.bench);
    BenchPlain(m, shared);
    InfoPlain(m, shared);
    QueuesPlain(m.redisQueues, shared);
    QueuesAt(m.redisQueues);
    assert |BenchItems(m)| == 3 + |Info(m)| + |m.redisQueues| && |Info(m)| == if m.frappeVersion == "" then 0 else 1;
    hide BenchGauges;
    hide Info;
    hide AllQueues;
    hide AllPlain;
    hide AllClean;
    hide CleanTags;
    hide Rendered;
    hide Decode;
    BothParts(shared, BenchGauges(m), Info(m));
    BothParts(shared, BenchGauges(m) + Info(m), AllQueues(m.redisQueues));
    ItemsDecode(BENCH, shared, BenchItems(m), m.ts);
  }

  /** The same for a site. */
  lemma {:induction false} SiteTextDecodes(m: SiteMetrics, server: string)
    ensures Decode(Rendered(SiteRecords(m, server))) == Some(SiteRecords(m, server))
       <==> '\n' !in server && '\n' !in m.bench && '\n' !in m.site
  {
    var shared := [Tag("server", server), Tag("bench", m.bench), Tag("site", m.site)];
    TagNames();
    SiteNames();
    Prefixes();
    hide PlainToken;
    hide IntText;
    assert CleanTags(shared) <==> '\n' !in server && '\n' !in m.bench && '\n' !in m.site by {
      assert shared[0] in shared && shared[1] in shared && shared[2] in shared;
    }
    hide CleanTags;
    hide AllClean;
    hide Rendered;
    hide Decode;
    hide RecordsOf;
    GaugesAreClean(shared, SiteGauges(m));
    ItemsDecode(SITE, shared, SiteGauges(m), m.ts);
  }
}
