/** Labelled collector keys and the readings grouped by them (internal/parser/server.go:149-283). */
module ServerSections {
  import opened Text

  // ------------------------------------------------------------- labelled keys

  datatype LabeledKey = LabeledKey(base: string, labels: map<string, string>)

  predicate Quoted(s: string) {
    |s| >= 2 && s[0] == '"' && s[|s| - 1] == '"'
  }

  /** One label="value" pair of a key's braces. */
  function ParsePair(pair: string): Option<(string, string)> {
    var eq := IndexOf(pair, '=');
    if eq < 0 then None
    else
      var value := TrimSpace(pair[eq + 1..]);
      if Quoted(value) then Some((TrimSpace(pair[..eq]), value[1..|value| - 1])) else None
  }

  /** All pairs; a label given twice keeps its last value. */
  function ParsePairs(pairs: seq<string>): Option<map<string, string>> {
    if pairs == [] then Some(map[])
    else
      match (ParsePairs(pairs[..|pairs| - 1]), ParsePair(pairs[|pairs| - 1]))
      case (Some(before), Some(p)) => Some(before[p.0 := p.1])
      case _ => None
  }

  /** splitLabeledKey; None stands for ok == false. */
  function LabeledKeyOf(k: string): Option<LabeledKey> {
    var brace := IndexOf(k, '{');
    if brace < 0 || k[|k| - 1] != '}' then None
    else
      var body := k[brace + 1..|k| - 1];
      if body == "" then Some(LabeledKey(k[..brace], map[]))
      else
        match ParsePairs(Split(body, ','))
        case None => None
        case Some(labels) => Some(LabeledKey(k[..brace], labels))
  }

  method SplitLabeledKey(k: string) returns (r: Option<LabeledKey>)
    ensures r == LabeledKeyOf(k)
  {
    hide ParsePair;
    hide Split;
    var brace := IndexOf(k, '{');
    if brace < 0 {
      return None;
    }
    if k[|k| - 1] != '}' {
      return None;
    }
    var base, body := k[..brace], k[brace + 1..|k| - 1];
    if body == "" {
      return Some(LabeledKey(base, map[]));
    }
    var labels := map[];
    var pairs := Split(body, ',');
    for i := 0 to |pairs|
      invariant ParsePairs(pairs[..i]) == Some(labels)
    {
      assert pairs[..i + 1][..i] == pairs[..i];
      var p := ParsePair(pairs[i]);
      if p.None? {
        NoPairsAfter(pairs, i + 1);
        return None;
      }
      labels := labels[p.value.0 := p.value.1];
    }
    assert pairs[..|pairs|] == pairs;
    r := Some(LabeledKey(base, labels));
  }

  lemma {:induction false} NoPairsAfter(pairs: seq<string>, i: nat)
    requires i <= |pairs| && ParsePairs(pairs[..i]).None?
    ensures ParsePairs(pairs).None?
  {
    if i == |pairs| {
      assert pairs[..i] == pairs;
    } else {
      assert pairs[..|pairs| - 1][..i] == pairs[..i];
      NoPairsAfter(pairs[..|pairs| - 1], i);
    }
  }

  /** The shape the collector prints: one label, its value quoted as it is. */
  function LabelPair(tag: string, value: string): string {
    tag + ['='] + (['"'] + value + ['"'])
  }

  function OneLabelKey(base: string, tag: string, value: string): string {
    base + ['{'] + (LabelPair(tag, value) + ['}'])
  }

  /** A label name the parser reads back: no separator in it, no space around it. */
  predicate GoodLabel(tag: string) {
    tag != "" && '=' !in tag && ',' !in tag && !IsSpace(tag[0]) && !IsSpace(tag[|tag| - 1])
  }

  /** A one-label key reads back exactly when its value holds no comma, whatever else it holds. */
  lemma {:induction false} OneLabelKeyReadsBack(base: string, tag: string, value: string)
    requires '{' !in base && GoodLabel(tag)
    ensures LabeledKeyOf(OneLabelKey(base, tag, value)) == Some(LabeledKey(base, map[tag := value]))
       <==> ',' !in value
  {
    hide TrimSpace;
    hide IndexOf;
    hide ParsePair;
    var body := LabelPair(tag, value);
    BracedKey(base, body);
    var parsed := ParsePairs(Split(body, ','));
    if ',' !in value {
      SplitNone(body, ',');
      OnePair(body);
      LabelPairParses(tag, value);
      assert parsed == Some(map[tag := value]);
    } else if parsed.Some? {
      ParsedValuesAreFree(Split(body, ','), ',');
      assert tag in parsed.value ==> parsed.value[tag] != value;
      assert tag in map[tag := value];
    }
  }

  lemma {:induction false} BracedKey(base: string, body: string)
    requires '{' !in base && body != ""
    ensures LabeledKeyOf(base + ['{'] + (body + ['}'])) == match ParsePairs(Split(body, ','))
                                                           case None => None
                                                           case Some(labels) => Some(LabeledKey(base, labels))
  {
    hide IndexOf;
    hide ParsePairs;
    hide Split;
    var k := base + ['{'] + (body + ['}']);
    IndexOfAppend(base, '{', body + ['}']);
    assert k[..|base|] == base && k[|k| - 1] == '}';
    assert k[|base| + 1..|k| - 1] == body;
  }

  lemma {:induction false} OnePair(pair: string)
    ensures ParsePairs([pair]) == match ParsePair(pair)
                                  case None => None
                                  case Some(p) => Some(map[p.0 := p.1])
  {
    hide ParsePair;
    assert [pair][..0] == [];
  }

  lemma {:induction false} SplitNone(s: string, sep: char)
    requires sep !in s
    ensures Split(s, sep) == [s]
  {
  }

  lemma {:induction false} LabelPairParses(tag: string, value: string)
    requires GoodLabel(tag)
    ensures ParsePair(LabelPair(tag, value)) == Some((tag, value))
  {
    var quoted := ['"'] + value + ['"'];
    var pair := LabelPair(tag, value);
    IndexOfAppend(tag, '=', quoted);
    assert pair[..|tag|] == tag && pair[|tag| + 1..] == quoted;
    TrimSpaceIdentity(tag);
    TrimSpaceIdentity(quoted);
    assert quoted[1..|quoted| - 1] == value;
  }

  lemma {:induction false} TrimSpaceKeeps(s: string, c: char)
    requires c !in s
    ensures c !in TrimSpace(s)
  {
    TrimLeftKeeps(s, c);
    TrimRightKeeps(TrimLeftSpace(s), c);
  }

  lemma {:induction false} TrimLeftKeeps(s: string, c: char)
    requires c !in s
    ensures c !in TrimLeftSpace(s)
  {
    if s != [] && IsSpace(s[0]) {
      TrimLeftKeeps(s[1..], c);
    }
  }

  lemma {:induction false} TrimRightKeeps(s: string, c: char)
    requires c !in s
    ensures c !in TrimRightSpace(s)
  {
    if s != [] && IsSpace(s[|s| - 1]) {
      TrimRightKeeps(s[..|s| - 1], c);
    }
  }

  lemma {:induction false} ParsedValuesAreFree(pairs: seq<string>, c: char)
    requires forall p :: p in pairs ==> c !in p
    requires ParsePairs(pairs).Some?
    ensures forall tag :: tag in ParsePairs(pairs).value ==> c !in ParsePairs(pairs).value[tag]
  {
    if pairs != [] {
      var n := |pairs| - 1;
      ParsedValuesAreFree(pairs[..n], c);
      assert pairs[n] in pairs;
      TrimSpaceKeeps(pairs[n][IndexOf(pairs[n], '=') + 1..], c);
    }
  }

  // ------------------------------------------------------- grouped readings

  /** The base and the value of `label` that a key carries, if it carries that label. */
  function Carried(k: string, tag: string): Option<(string, string)> {
    match LabeledKeyOf(k)
    case None => None
    case Some(lk) => if tag in lk.labels then Some((lk.base, lk.labels[tag])) else None
  }

  /** Which label groups the readings and the two bases every group must have. */
  datatype Shape = Shape(tag: string, first: string, second: string)

  const DISKS := Shape("mount", "disk_used_bytes", "disk_total_bytes")
  const NETS := Shape("iface", "net_rx_bytes", "net_tx_bytes")

  /** A disk mount (used, total) or a network interface (received, sent). */
  datatype Pair = Pair(name: string, first: int, second: int)

  datatype ReadError =
    | BadValue(key: string)
    | MissingBoth(name: string)
    | MissingFirst(name: string)
    | MissingSecond(name: string)

  datatype ReadResult = Pairs(pairs: seq<Pair>) | Torn(error: ReadError)

  ghost predicate Mentioned(keys: set<string>, tag: string, name: string) {
    exists k :: k in keys && Carried(k, tag).Some? && Carried(k, tag).value.1 == name
  }

  ghost predicate HasBase(keys: set<string>, tag: string, base: string, name: string) {
    exists k :: k in keys && Carried(k, tag) == Some((base, name))
  }

  /** Some key of `keys` reads `n` for (base, name). */
  ghost predicate Held(kvs: map<string, string>, keys: set<string>, tag: string, base: string, name: string, n: int) {
    exists k :: k in keys && k in kvs && Carried(k, tag) == Some((base, name)) && ParseInt64(kvs[k]) == Some(n)
  }

  predicate GoodValue(kvs: map<string, string>, tag: string, k: string)
    requires k in kvs
  {
    Carried(k, tag).Some? ==> ParseInt64(kvs[k]).Some?
  }

  ghost predicate AllGood(kvs: map<string, string>, keys: set<string>, tag: string) {
    forall k :: k in keys && k in kvs ==> GoodValue(kvs, tag, k)
  }

  /** What readDisks and readNet may answer, whatever the order in which the map is walked. */
  ghost predicate Reads(kvs: map<string, string>, sh: Shape, r: ReadResult) {
    match r
    case Pairs(pairs) =>
      && AllGood(kvs, kvs.Keys, sh.tag)
      && (forall i, j :: 0 <= i < j < |pairs| ==> pairs[i].name != pairs[j].name)
      && (forall name: string :: Mentioned(kvs.Keys, sh.tag, name) <==> Named(pairs, name))
      && forall p :: p in pairs ==>
           && Held(kvs, kvs.Keys, sh.tag, sh.first, p.name, p.first)
           && Held(kvs, kvs.Keys, sh.tag, sh.second, p.name, p.second)
    case Torn(BadValue(k)) => k in kvs && !GoodValue(kvs, sh.tag, k)
    case Torn(MissingBoth(name)) => Lacks(kvs, sh, name, true, true)
    case Torn(MissingFirst(name)) => Lacks(kvs, sh, name, true, false)
    case Torn(MissingSecond(name)) => Lacks(kvs, sh, name, false, true)
  }

  ghost predicate Lacks(kvs: map<string, string>, sh: Shape, name: string, noFirst: bool, noSecond: bool) {
    && AllGood(kvs, kvs.Keys, sh.tag)
    && Mentioned(kvs.Keys, sh.tag, name)
    && HasBase(kvs.Keys, sh.tag, sh.first, name) == !noFirst
    && HasBase(kvs.Keys, sh.tag, sh.second, name) == !noSecond
  }

  ghost predicate Named(pairs: seq<Pair>, name: string) {
    exists p :: p in pairs && p.name == name
  }

  datatype Acc = Acc(first: Option<int>, second: Option<int>)

  function Noted(groups: map<string, Acc>, sh: Shape, base: string, name: string, n: int): map<string, Acc> {
    var entry := if name in groups then groups[name] else Acc(None, None);
    groups[name := if base == sh.first then entry.(first := Some(n))
               else if base == sh.second then entry.(second := Some(n))
               else entry]
  }

  /** What the accumulator says of one group is what the keys walked so far say of it. */
  ghost predicate Tracks(kvs: map<string, string>, keys: set<string>, sh: Shape, groups: map<string, Acc>, name: string) {
    && (name in groups <==> Mentioned(keys, sh.tag, name))
    && (name in groups ==>
          && TracksOne(kvs, keys, sh.tag, sh.first, name, groups[name].first)
          && TracksOne(kvs, keys, sh.tag, sh.second, name, groups[name].second))
  }

  ghost predicate TracksOne(kvs: map<string, string>, keys: set<string>, tag: string, base: string, name: string, v: Option<int>) {
    match v
    case None => !HasBase(keys, tag, base, name)
    case Some(n) => Held(kvs, keys, tag, base, name, n)
  }

  lemma {:induction false} Skipped(kvs: map<string, string>, keys: set<string>, sh: Shape, groups: map<string, Acc>, k: string, name: string)
    requires Carried(k, sh.tag).None? && Tracks(kvs, keys, sh, groups, name)
    ensures Tracks(kvs, keys + {k}, sh, groups, name)
  {
    hide Carried;
    hide ParseInt64;
  }

  lemma {:induction false} NotedTracks(
    kvs: map<string, string>, keys: set<string>, sh: Shape, groups: map<string, Acc>, k: string, n: int, name: string)
    requires sh.first != sh.second && k in kvs && ParseInt64(kvs[k]) == Some(n)
    requires Carried(k, sh.tag).Some? && Tracks(kvs, keys, sh, groups, name)
    ensures var c := Carried(k, sh.tag).value;
            Tracks(kvs, keys + {k}, sh, Noted(groups, sh, c.0, c.1, n), name)
  {
    hide Carried;
    hide ParseInt64;
    var c := Carried(k, sh.tag).value;
    var keys' := keys + {k};
    assert Mentioned(keys', sh.tag, name) <==> Mentioned(keys, sh.tag, name) || c.1 == name by {
      assert k in keys';
    }
    NotedTracksOne(kvs, keys, sh.tag, k, n, sh.first, name, if name in groups then groups[name].first else None);
    NotedTracksOne(kvs, keys, sh.tag, k, n, sh.second, name, if name in groups then groups[name].second else None);
  }

  lemma {:induction false} NotedTracksOne(
    kvs: map<string, string>, keys: set<string>, tag: string, k: string, n: int, base: string, name: string, v: Option<int>)
    requires k in kvs && ParseInt64(kvs[k]) == Some(n) && Carried(k, tag).Some?
    requires TracksOne(kvs, keys, tag, base, name, v) || (v.None? && !Mentioned(keys, tag, name))
    ensures TracksOne(kvs, keys + {k}, tag, base, name, if Carried(k, tag) == Some((base, name)) then Some(n) else v)
  {
    hide Carried;
    hide ParseInt64;
    assert k in keys + {k};
  }

  // ------------------------------------------------------ walking the maps

  /** The accumulator once the keys of `order` have been walked, or the key whose value is bad. */
  datatype Walked = Groups(groups: map<string, Acc>) | Bad(key: string)

  function WalkStep(kvs: map<string, string>, sh: Shape, groups: map<string, Acc>, k: string): Walked
    requires k in kvs
  {
    match Carried(k, sh.tag)
    case None => Groups(groups)
    case Some(c) =>
      match ParseInt64(kvs[k])
      case None => Bad(k)
      case Some(n) => Groups(Noted(groups, sh, c.0, c.1, n))
  }

  function WalkKeys(kvs: map<string, string>, sh: Shape, order: seq<string>): Walked
    requires forall k :: k in order ==> k in kvs
  {
    if order == [] then Groups(map[])
    else
      match WalkKeys(kvs, sh, order[..|order| - 1])
      case Bad(k) => Bad(k)
      case Groups(groups) => WalkStep(kvs, sh, groups, order[|order| - 1])
  }

  function GroupStep(pairs: seq<Pair>, name: string, a: Acc): ReadResult {
    if a.first.None? && a.second.None? then Torn(MissingBoth(name))
    else if a.first.None? then Torn(MissingFirst(name))
    else if a.second.None? then Torn(MissingSecond(name))
    else Pairs(pairs + [Pair(name, a.first.value, a.second.value)])
  }

  /** What the second loop makes of the accumulator, its groups walked in the order of `names`. */
  function WalkGroups(groups: map<string, Acc>, names: seq<string>): ReadResult
    requires forall name :: name in names ==> name in groups
  {
    if names == [] then Pairs([])
    else
      var name := names[|names| - 1];
      match WalkGroups(groups, names[..|names| - 1])
      case Torn(error) => Torn(error)
      case Pairs(pairs) => GroupStep(pairs, name, groups[name])
  }

  /** Walking the section in the order `order`, and its groups in the order `names`, yields `r`. */
  ghost predicate Yields(kvs: map<string, string>, sh: Shape, order: seq<string>, names: seq<string>, r: ReadResult) {
    && Enumerates(order, kvs.Keys)
    && match WalkKeys(kvs, sh, order)
       case Bad(k) => r == Torn(BadValue(k))
       case Groups(groups) => Enumerates(names, groups.Keys) && r == WalkGroups(groups, names)
  }

  lemma {:induction false} BadStays(kvs: map<string, string>, sh: Shape, order: seq<string>, rest: seq<string>)
    requires forall k :: k in order + rest ==> k in kvs
    requires (forall k :: k in order ==> k in kvs) && WalkKeys(kvs, sh, order).Bad?
    ensures WalkKeys(kvs, sh, order + rest) == WalkKeys(kvs, sh, order)
    decreases |rest|
  {
    hide WalkStep;
    if rest == [] {
      assert order + rest == order;
    } else {
      var n := |rest| - 1;
      assert (order + rest)[..|order + rest| - 1] == order + rest[..n];
      assert forall k :: k in order + rest[..n] ==> k in order + rest;
      BadStays(kvs, sh, order, rest[..n]);
    }
  }

  lemma {:induction false} TornStays(groups: map<string, Acc>, names: seq<string>, rest: seq<string>)
    requires forall name :: name in names + rest ==> name in groups
    requires (forall name :: name in names ==> name in groups) && WalkGroups(groups, names).Torn?
    ensures WalkGroups(groups, names + rest) == WalkGroups(groups, names)
    decreases |rest|
  {
    hide GroupStep;
    if rest == [] {
      assert names + rest == names;
    } else {
      var n := |rest| - 1;
      assert (names + rest)[..|names + rest| - 1] == names + rest[..n];
      assert forall k :: k in names + rest[..n] ==> k in names + rest;
      TornStays(groups, names, rest[..n]);
    }
  }

  /** Any walk begun can be carried on over all that is left. */
  lemma {:induction false} OrderThrough<T(!new)>(begun: seq<T>, all: set<T>) returns (rest: seq<T>)
    requires (forall i, j :: 0 <= i < j < |begun| ==> begun[i] != begun[j]) && forall x :: x in begun ==> x in all
    ensures Enumerates(begun + rest, all)
  {
    var done := set x | x in begun;
    rest := SomeOrder(all - done);
    var order := begun + rest;
    forall i, j | 0 <= i < j < |order| ensures order[i] != order[j] {
      if i < |begun| <= j {
        assert order[i] in done && order[j] in rest;
      }
    }
  }

  /** readDisks and readNet: the map is walked in any order, and so is the accumulator. */
  method ReadPairs(kvs: map<string, string>, sh: Shape) returns (r: ReadResult, ghost order: seq<string>, ghost names: seq<string>)
    requires sh.first != sh.second
    ensures Yields(kvs, sh, order, names, r) && Reads(kvs, sh, r)
  {
    hide ParseInt64;
    hide Carried;
    hide Noted;
    hide WalkGroups;
    hide Reads;
    var groups: map<string, Acc> := map[];
    order, names := [], [];
    var left := kvs.Keys;
    while left != {}
      invariant left <= kvs.Keys && Enumerates(order, kvs.Keys - left)
      invariant WalkKeys(kvs, sh, order) == Groups(groups)
      decreases left
    {
      var k :| k in left;
      left := left - {k};
      ghost var walked := order;
      order := order + [k];
      assert order[..|order| - 1] == walked;
      var carried := CarriedBy(k, sh.tag);
      if carried.Some? {
        var n := ParseInt64(kvs[k]);
        if n.None? {
          ghost var rest := OrderThrough(order, kvs.Keys);
          BadStays(kvs, sh, order, rest);
          order := order + rest;
          r := Torn(BadValue(k));
          YieldsIsRead(kvs, sh, order, names, r);
          return;
        }
        groups := Noted(groups, sh, carried.value.0, carried.value.1, n.value);
      }
    }
    r, names := Collect(groups);
    YieldsIsRead(kvs, sh, order, names, r);
  }

  /** The loop over the accumulator. */
  method Collect(groups: map<string, Acc>) returns (r: ReadResult, ghost names: seq<string>)
    ensures Enumerates(names, groups.Keys) && r == WalkGroups(groups, names)
  {
    var pairs: seq<Pair> := [];
    names := [];
    var left := groups.Keys;
    while left != {}
      invariant left <= groups.Keys && Enumerates(names, groups.Keys - left)
      invariant WalkGroups(groups, names) == Pairs(pairs)
      decreases left
    {
      var name :| name in left;
      left := left - {name};
      ghost var walked := names;
      names := names + [name];
      assert names[..|names| - 1] == walked;
      var a := groups[name];
      if a.first.None? || a.second.None? {
        if a.first.None? && a.second.None? {
          r := Torn(MissingBoth(name));
        } else if a.first.None? {
          r := Torn(MissingFirst(name));
        } else {
          r := Torn(MissingSecond(name));
        }
        ghost var rest := OrderThrough(names, groups.Keys);
        TornStays(groups, names, rest);
        names := names + rest;
        return;
      }
      pairs := pairs + [Pair(name, a.first.value, a.second.value)];
    }
    r := Pairs(pairs);
  }

  // ------------------------------------------- every walk tells the truth

  function KeysOf(order: seq<string>): set<string> {
    set k | k in order
  }

  lemma {:induction false} WalkTracks(kvs: map<string, string>, sh: Shape, order: seq<string>)
    requires sh.first != sh.second && forall k :: k in order ==> k in kvs
    ensures var w := WalkKeys(kvs, sh, order);
            && (w.Bad? ==> w.key in order && !GoodValue(kvs, sh.tag, w.key))
            && (w.Groups? ==>
                  && AllGood(kvs, KeysOf(order), sh.tag)
                  && forall name: string :: Tracks(kvs, KeysOf(order), sh, w.groups, name))
  {
    hide ParseInt64;
    hide Carried;
    hide Noted;
    hide Tracks;
    hide GoodValue;
    if order == [] {
      forall name: string ensures Tracks(kvs, KeysOf(order), sh, map[], name) {
        NothingTracked(kvs, sh, name);
        assert KeysOf(order) == {};
      }
    } else {
      var init, k := order[..|order| - 1], order[|order| - 1];
      WalkTracks(kvs, sh, init);
      assert order == init + [k];
      assert KeysOf(order) == KeysOf(init) + {k};
      if WalkKeys(kvs, sh, init).Groups? {
        var groups := WalkKeys(kvs, sh, init).groups;
        IsGood(kvs, sh.tag, k);
        if Carried(k, sh.tag).None? {
          forall name: string ensures Tracks(kvs, KeysOf(order), sh, groups, name) {
            Skipped(kvs, KeysOf(init), sh, groups, k, name);
          }
        } else if ParseInt64(kvs[k]).Some? {
          var c := Carried(k, sh.tag).value;
          forall name: string
            ensures Tracks(kvs, KeysOf(order), sh, Noted(groups, sh, c.0, c.1, ParseInt64(kvs[k]).value), name)
          {
            NotedTracks(kvs, KeysOf(init), sh, groups, k, ParseInt64(kvs[k]).value, name);
          }
        }
      }
    }
  }

  /** The second loop's outcome, group by group. */
  lemma {:induction false} WalkGroupsIs(groups: map<string, Acc>, names: seq<string>)
    requires forall name :: name in names ==> name in groups
    ensures match WalkGroups(groups, names)
            case Pairs(pairs) =>
              |pairs| == |names| && forall i :: 0 <= i < |names| ==>
                pairs[i].name == names[i] && groups[names[i]] == Acc(Some(pairs[i].first), Some(pairs[i].second))
            case Torn(BadValue(_)) => false
            case Torn(MissingBoth(name)) => name in names && groups[name] == Acc(None, None)
            case Torn(MissingFirst(name)) => name in names && groups[name].first.None? && groups[name].second.Some?
            case Torn(MissingSecond(name)) => name in names && groups[name].first.Some? && groups[name].second.None?
  {
    if names != [] {
      WalkGroupsIs(groups, names[..|names| - 1]);
    }
  }

  /** Whatever a walk yields is true of the section. */
  lemma {:induction false} YieldsIsRead(kvs: map<string, string>, sh: Shape, order: seq<string>, names: seq<string>, r: ReadResult)
    requires sh.first != sh.second && Yields(kvs, sh, order, names, r)
    ensures Reads(kvs, sh, r)
  {
    hide WalkKeys;
    hide WalkGroups;
    hide Tracks;
    hide GoodValue;
    WalkTracks(kvs, sh, order);
    assert KeysOf(order) == kvs.Keys;
    if WalkKeys(kvs, sh, order).Groups? {
      var groups := WalkKeys(kvs, sh, order).groups;
      WalkGroupsIs(groups, names);
      hide AllGood;
      GroupsAreRead(kvs, sh, groups, names, r);
    }
  }

  lemma {:induction false} GroupsAreRead(kvs: map<string, string>, sh: Shape, groups: map<string, Acc>, names: seq<string>, r: ReadResult)
    requires AllGood(kvs, kvs.Keys, sh.tag) && forall name: string :: Tracks(kvs, kvs.Keys, sh, groups, name)
    requires Enumerates(names, groups.Keys) && r == WalkGroups(groups, names)
    ensures Reads(kvs, sh, r)
  {
    hide AllGood;
    hide Mentioned;
    hide HasBase;
    hide Held;
    hide Carried;
    hide WalkGroups;
    hide Tracks;
    WalkGroupsIs(groups, names);
    match r
    case Pairs(pairs) => PairsAreRead(kvs, sh, groups, names, pairs);
    case Torn(BadValue(k)) =>
    case Torn(MissingBoth(name)) => TracksSays(kvs, sh, groups, name);
    case Torn(MissingFirst(name)) => TracksSays(kvs, sh, groups, name);
    case Torn(MissingSecond(name)) => TracksSays(kvs, sh, groups, name);
  }

  lemma {:induction false} TracksSays(kvs: map<string, string>, sh: Shape, groups: map<string, Acc>, name: string)
    requires Tracks(kvs, kvs.Keys, sh, groups, name) && name in groups
    ensures Mentioned(kvs.Keys, sh.tag, name)
    ensures HasBase(kvs.Keys, sh.tag, sh.first, name) == groups[name].first.Some?
    ensures HasBase(kvs.Keys, sh.tag, sh.second, name) == groups[name].second.Some?
    ensures groups[name].first.Some? ==> Held(kvs, kvs.Keys, sh.tag, sh.first, name, groups[name].first.value)
    ensures groups[name].second.Some? ==> Held(kvs, kvs.Keys, sh.tag, sh.second, name, groups[name].second.value)
  {
    hide HasBase;
    hide Held;
    hide Mentioned;
    if groups[name].first.Some? {
      HeldHasBase(kvs, sh.tag, sh.first, name, groups[name].first.value);
    }
    if groups[name].second.Some? {
      HeldHasBase(kvs, sh.tag, sh.second, name, groups[name].second.value);
    }
  }

  lemma {:induction false} PairsAreRead(kvs: map<string, string>, sh: Shape, groups: map<string, Acc>, names: seq<string>, pairs: seq<Pair>)
    requires AllGood(kvs, kvs.Keys, sh.tag) && forall name: string :: Tracks(kvs, kvs.Keys, sh, groups, name)
    requires Enumerates(names, groups.Keys) && |pairs| == |names|
    requires forall i :: 0 <= i < |names| ==>
               pairs[i].name == names[i] && groups[names[i]] == Acc(Some(pairs[i].first), Some(pairs[i].second))
    ensures Reads(kvs, sh, Pairs(pairs))
  {
    hide AllGood;
    hide Mentioned;
    hide HasBase;
    hide Held;
    forall name: string
      ensures Mentioned(kvs.Keys, sh.tag, name) <==> Named(pairs, name)
    {
      assert Tracks(kvs, kvs.Keys, sh, groups, name);
      if name in groups {
        var i :| 0 <= i < |names| && names[i] == name;
        assert pairs[i] in pairs;
      }
    }
    hide Named;
    hide Tracks;
    forall p | p in pairs
      ensures Held(kvs, kvs.Keys, sh.tag, sh.first, p.name, p.first)
      ensures Held(kvs, kvs.Keys, sh.tag, sh.second, p.name, p.second)
    {
      var i :| 0 <= i < |names| && pairs[i] == p;
      assert names[i] in groups;
      TracksSays(kvs, sh, groups, names[i]);
    }
  }

  lemma {:induction false} NothingTracked(kvs: map<string, string>, sh: Shape, name: string)
    ensures Tracks(kvs, {}, sh, map[], name)
  {
    hide Carried;
  }

  lemma {:induction false} IsGood(kvs: map<string, string>, tag: string, k: string)
    requires k in kvs
    ensures GoodValue(kvs, tag, k) <==> Carried(k, tag).None? || ParseInt64(kvs[k]).Some?
  {
    hide Carried;
    hide ParseInt64;
  }

  method CarriedBy(k: string, tag: string) returns (r: Option<(string, string)>)
    ensures r == Carried(k, tag)
  {
    hide LabeledKeyOf;
    var lk := SplitLabeledKey(k);
    if lk.None? || tag !in lk.value.labels {
      return None;
    }
    return Some((lk.value.base, lk.value.labels[tag]));
  }

  lemma {:induction false} HeldHasBase(kvs: map<string, string>, tag: string, base: string, name: string, n: int)
    requires Held(kvs, kvs.Keys, tag, base, name, n)
    ensures HasBase(kvs.Keys, tag, base, name)
  {
    hide Carried;
    hide ParseInt64;
  }

  // ------------------------------------------ every true answer has a walk

  /** The last key of `order` that carries (base, name). */
  function LastCarrier(order: seq<string>, tag: string, base: string, name: string): Option<string> {
    if order == [] then None
    else if Carried(order[|order| - 1], tag) == Some((base, name)) then Some(order[|order| - 1])
    else LastCarrier(order[..|order| - 1], tag, base, name)
  }

  lemma {:induction false} LastCarrierAppend(a: seq<string>, b: seq<string>, tag: string, base: string, name: string)
    ensures LastCarrier(a + b, tag, base, name) ==
            if LastCarrier(b, tag, base, name).Some? then LastCarrier(b, tag, base, name) else LastCarrier(a, tag, base, name)
    decreases |b|
  {
    hide Carried;
    if b == [] {
      assert a + b == a;
    } else {
      assert (a + b)[..|a + b| - 1] == a + b[..|b| - 1];
      LastCarrierAppend(a, b[..|b| - 1], tag, base, name);
    }
  }

  lemma {:induction false} NoCarrier(order: seq<string>, tag: string, base: string, name: string)
    requires forall k :: k in order ==> Carried(k, tag) != Some((base, name))
    ensures LastCarrier(order, tag, base, name).None?
  {
    hide Carried;
    if order != [] {
      assert order[|order| - 1] in order;
      NoCarrier(order[..|order| - 1], tag, base, name);
    }
  }

  /** A walk leaves in each place of a group the value of the last key that carries it. */
  lemma {:induction false} LastValueStays(kvs: map<string, string>, sh: Shape, order: seq<string>, name: string)
    requires sh.first != sh.second && (forall k :: k in order ==> k in kvs) && WalkKeys(kvs, sh, order).Groups?
    ensures var groups := WalkKeys(kvs, sh, order).groups;
            var k1, k2 := LastCarrier(order, sh.tag, sh.first, name), LastCarrier(order, sh.tag, sh.second, name);
            && (k1.Some? ==> k1.value in kvs && name in groups && groups[name].first == ParseInt64(kvs[k1.value]))
            && (k2.Some? ==> k2.value in kvs && name in groups && groups[name].second == ParseInt64(kvs[k2.value]))
  {
    hide ParseInt64;
    hide Carried;
    if order != [] {
      var init, k := order[..|order| - 1], order[|order| - 1];
      assert k in order && forall q :: q in init ==> q in order;
      LastValueStays(kvs, sh, init, name);
    }
  }

  /** The keys of `ks` all carry the name of one of the groups. */
  ghost predicate CarryNames(kvs: map<string, string>, tag: string, ks: seq<string>, pairs: seq<Pair>) {
    forall k :: k in ks ==> k in kvs && Carried(k, tag).Some? && Named(pairs, Carried(k, tag).value.1)
  }

  ghost predicate Distinct(ks: seq<string>) {
    forall i, j :: 0 <= i < j < |ks| ==> ks[i] != ks[j]
  }

  /** For each group, two keys that hold its values: walked last, they decide. */
  lemma {:induction false} Deciders(kvs: map<string, string>, sh: Shape, pairs: seq<Pair>) returns (ks: seq<string>)
    requires sh.first != sh.second && forall i, j :: 0 <= i < j < |pairs| ==> pairs[i].name != pairs[j].name
    requires forall p :: p in pairs ==>
               && Held(kvs, kvs.Keys, sh.tag, sh.first, p.name, p.first)
               && Held(kvs, kvs.Keys, sh.tag, sh.second, p.name, p.second)
    ensures Distinct(ks) && CarryNames(kvs, sh.tag, ks, pairs)
    ensures forall p :: p in pairs ==> Decides(kvs, sh, ks, p)
  {
    hide Held;
    hide Decides;
    hide Carried;
    hide ParseInt64;
    if pairs == [] {
      ks := [];
    } else {
      hide Distinct;
      hide CarryNames;
      var init, p := pairs[..|pairs| - 1], pairs[|pairs| - 1];
      assert pairs == init + [p];
      assert p in pairs && forall q :: q in init ==> q in pairs;
      var before := Deciders(kvs, sh, init);
      var k1, k2 := TwoCarriers(kvs, sh, p);
      ks := before + [k1, k2];
      assert forall q :: q in init ==> q.name != p.name;
      TwoMoreKeys(kvs, sh, before, init, k1, k2, p);
      forall q | q in pairs ensures Decides(kvs, sh, ks, q) {
        if q in init {
          StillDecides(kvs, sh, before, k1, k2, p.name, q);
        } else {
          LastTwoDecide(kvs, sh, before, k1, k2, p);
        }
      }
    }
  }

  lemma {:induction false} TwoMoreKeys(
    kvs: map<string, string>, sh: Shape, before: seq<string>, init: seq<Pair>, k1: string, k2: string, p: Pair)
    requires sh.first != sh.second && Distinct(before) && CarryNames(kvs, sh.tag, before, init)
    requires forall q :: q in init ==> q.name != p.name
    requires k1 in kvs && Carried(k1, sh.tag) == Some((sh.first, p.name))
    requires k2 in kvs && Carried(k2, sh.tag) == Some((sh.second, p.name))
    ensures Distinct(before + [k1, k2]) && CarryNames(kvs, sh.tag, before + [k1, k2], init + [p])
  {
    hide Carried;
    assert p in init + [p];
    forall k | k in before ensures Carried(k, sh.tag).value.1 != p.name && Named(init + [p], Carried(k, sh.tag).value.1) {
      var q :| q in init && q.name == Carried(k, sh.tag).value.1;
      assert q in init + [p];
    }
    assert k1 !in before && k2 !in before && k1 != k2;
  }

  ghost predicate Decides(kvs: map<string, string>, sh: Shape, ks: seq<string>, p: Pair) {
    var k1, k2 := LastCarrier(ks, sh.tag, sh.first, p.name), LastCarrier(ks, sh.tag, sh.second, p.name);
    && k1.Some? && k1.value in kvs && ParseInt64(kvs[k1.value]) == Some(p.first)
    && k2.Some? && k2.value in kvs && ParseInt64(kvs[k2.value]) == Some(p.second)
  }

  lemma {:induction false} TwoCarriers(kvs: map<string, string>, sh: Shape, p: Pair) returns (k1: string, k2: string)
    requires Held(kvs, kvs.Keys, sh.tag, sh.first, p.name, p.first)
    requires Held(kvs, kvs.Keys, sh.tag, sh.second, p.name, p.second)
    ensures k1 in kvs && Carried(k1, sh.tag) == Some((sh.first, p.name)) && ParseInt64(kvs[k1]) == Some(p.first)
    ensures k2 in kvs && Carried(k2, sh.tag) == Some((sh.second, p.name)) && ParseInt64(kvs[k2]) == Some(p.second)
  {
    hide ParseInt64;
    hide Carried;
    k1 :| k1 in kvs && Carried(k1, sh.tag) == Some((sh.first, p.name)) && ParseInt64(kvs[k1]) == Some(p.first);
    k2 :| k2 in kvs && Carried(k2, sh.tag) == Some((sh.second, p.name)) && ParseInt64(kvs[k2]) == Some(p.second);
  }

  lemma {:induction false} StillDecides(
    kvs: map<string, string>, sh: Shape, before: seq<string>, k1: string, k2: string, name: string, q: Pair)
    requires Decides(kvs, sh, before, q) && q.name != name
    requires Carried(k1, sh.tag) == Some((sh.first, name)) && Carried(k2, sh.tag) == Some((sh.second, name))
    ensures Decides(kvs, sh, before + [k1, k2], q)
  {
    hide Carried;
    hide ParseInt64;
    hide LastCarrier;
    NoCarrier([k1, k2], sh.tag, sh.first, q.name);
    NoCarrier([k1, k2], sh.tag, sh.second, q.name);
    LastCarrierAppend(before, [k1, k2], sh.tag, sh.first, q.name);
    LastCarrierAppend(before, [k1, k2], sh.tag, sh.second, q.name);
  }

  lemma {:induction false} LastTwoDecide(kvs: map<string, string>, sh: Shape, before: seq<string>, k1: string, k2: string, p: Pair)
    requires sh.first != sh.second
    requires k1 in kvs && Carried(k1, sh.tag) == Some((sh.first, p.name)) && ParseInt64(kvs[k1]) == Some(p.first)
    requires k2 in kvs && Carried(k2, sh.tag) == Some((sh.second, p.name)) && ParseInt64(kvs[k2]) == Some(p.second)
    ensures Decides(kvs, sh, before + [k1, k2], p)
  {
    hide Carried;
    hide ParseInt64;
    assert [k1, k2][..1] == [k1];
    assert LastCarrier([k1, k2], sh.tag, sh.second, p.name) == Some(k2);
    assert LastCarrier([k1], sh.tag, sh.first, p.name) == Some(k1);
    assert LastCarrier([k1, k2], sh.tag, sh.first, p.name) == Some(k1);
    LastCarrierAppend(before, [k1, k2], sh.tag, sh.first, p.name);
    LastCarrierAppend(before, [k1, k2], sh.tag, sh.second, p.name);
  }

  lemma {:induction false} GoodSectionIsWalked(kvs: map<string, string>, sh: Shape, order: seq<string>)
    requires AllGood(kvs, kvs.Keys, sh.tag) && forall k :: k in order ==> k in kvs
    ensures WalkKeys(kvs, sh, order).Groups?
  {
    hide Carried;
    hide ParseInt64;
    hide Noted;
    if order != [] {
      var init, k := order[..|order| - 1], order[|order| - 1];
      assert k in order && forall q :: q in init ==> q in order;
      GoodSectionIsWalked(kvs, sh, init);
      assert GoodValue(kvs, sh.tag, k);
    }
  }

  /** Any answer `Reads` allows is that of some walk: the keys that decide it walked last. */
  lemma {:induction false} PairsHaveAWalk(kvs: map<string, string>, sh: Shape, pairs: seq<Pair>)
    returns (order: seq<string>, names: seq<string>)
    requires sh.first != sh.second && Reads(kvs, sh, Pairs(pairs))
    ensures Yields(kvs, sh, order, names, Pairs(pairs))
  {
    hide Carried;
    hide ParseInt64;
    hide Held;
    hide Mentioned;
    hide LastCarrier;
    hide WalkKeys;
    hide WalkGroups;
    hide AllGood;
    hide Decides;
    hide CarryNames;
    var ks := Deciders(kvs, sh, pairs);
    CarryingKeys(kvs, sh.tag, ks, pairs);
    var done := set k | k in ks;
    var others := SomeOrder(kvs.Keys - done);
    order := others + ks;
    Followed(others, ks, kvs.Keys);
    names := seq(|pairs|, i requires 0 <= i < |pairs| => pairs[i].name);
    DecidedWalk(kvs, sh, others, ks, pairs, names);
  }

  lemma {:induction false} CarryingKeys(kvs: map<string, string>, tag: string, ks: seq<string>, pairs: seq<Pair>)
    requires CarryNames(kvs, tag, ks, pairs)
    ensures forall k :: k in ks ==> k in kvs
  {
  }

  lemma {:induction false} DecidedWalk(
    kvs: map<string, string>, sh: Shape, others: seq<string>, ks: seq<string>, pairs: seq<Pair>, names: seq<string>)
    requires sh.first != sh.second && Reads(kvs, sh, Pairs(pairs)) && Enumerates(others + ks, kvs.Keys)
    requires forall p :: p in pairs ==> Decides(kvs, sh, ks, p)
    requires |names| == |pairs| && forall i :: 0 <= i < |pairs| ==> names[i] == pairs[i].name
    ensures Yields(kvs, sh, others + ks, names, Pairs(pairs))
  {
    hide Carried;
    hide ParseInt64;
    hide Held;
    hide Mentioned;
    hide LastCarrier;
    hide WalkKeys;
    hide WalkGroups;
    hide AllGood;
    hide Decides;
    var order := others + ks;
    GoodSectionIsWalked(kvs, sh, order);
    WalkTracks(kvs, sh, order);
    assert KeysOf(order) == kvs.Keys;
    var groups := WalkKeys(kvs, sh, order).groups;
    forall name: string ensures name in names <==> name in groups {
      assert Tracks(kvs, kvs.Keys, sh, groups, name);
      NamesAreNamed(pairs, names, name);
    }
    hide Tracks;
    hide Named;
    forall i | 0 <= i < |pairs|
      ensures pairs[i].name in groups && groups[pairs[i].name] == Acc(Some(pairs[i].first), Some(pairs[i].second))
    {
      assert pairs[i] in pairs;
      DecidedValue(kvs, sh, others, ks, pairs[i]);
    }
    GroupsInOrder(groups, pairs, names);
  }

  lemma {:induction false} NamesAreNamed(pairs: seq<Pair>, names: seq<string>, name: string)
    requires |names| == |pairs| && forall i :: 0 <= i < |pairs| ==> names[i] == pairs[i].name
    ensures name in names <==> Named(pairs, name)
  {
    if name in names {
      var i :| 0 <= i < |names| && names[i] == name;
      assert pairs[i] in pairs;
    }
    if Named(pairs, name) {
      var i :| 0 <= i < |pairs| && pairs[i].name == name;
      assert names[i] in names;
    }
  }

  lemma {:induction false} Followed(a: seq<string>, b: seq<string>, all: set<string>)
    requires (forall i, j :: 0 <= i < j < |a| ==> a[i] != a[j]) && forall i, j :: 0 <= i < j < |b| ==> b[i] != b[j]
    requires (forall x :: x in b ==> x in all) && forall x :: x in a <==> x in all && x !in b
    ensures Enumerates(a + b, all)
  {
    var order := a + b;
    forall i, j | 0 <= i < j < |order| ensures order[i] != order[j] {
      if i < |a| <= j {
        assert order[i] in a && order[j] in b;
      }
    }
  }

  lemma {:induction false} DecidedValue(kvs: map<string, string>, sh: Shape, others: seq<string>, ks: seq<string>, p: Pair)
    requires sh.first != sh.second && (forall k :: k in others + ks ==> k in kvs)
    requires WalkKeys(kvs, sh, others + ks).Groups? && Decides(kvs, sh, ks, p)
    ensures var groups := WalkKeys(kvs, sh, others + ks).groups;
            p.name in groups && groups[p.name] == Acc(Some(p.first), Some(p.second))
  {
    hide Carried;
    hide ParseInt64;
    hide LastCarrier;
    hide WalkKeys;
    LastCarrierAppend(others, ks, sh.tag, sh.first, p.name);
    LastCarrierAppend(others, ks, sh.tag, sh.second, p.name);
    LastValueStays(kvs, sh, others + ks, p.name);
  }

  lemma {:induction false} GroupsInOrder(groups: map<string, Acc>, pairs: seq<Pair>, names: seq<string>)
    requires |names| == |pairs| && forall name :: name in names ==> name in groups
    requires forall i :: 0 <= i < |pairs| ==>
               names[i] == pairs[i].name && groups[names[i]] == Acc(Some(pairs[i].first), Some(pairs[i].second))
    ensures WalkGroups(groups, names) == Pairs(pairs)
  {
    if names != [] {
      var n := |names| - 1;
      GroupsInOrder(groups, pairs[..n], names[..n]);
      assert pairs == pairs[..n] + [Pair(names[n], pairs[n].first, pairs[n].second)];
    }
  }

  /** An error `Reads` allows is that of some walk too: the offending key or group walked first. */
  lemma {:induction false} TornHasAWalk(kvs: map<string, string>, sh: Shape, error: ReadError)
    returns (order: seq<string>, names: seq<string>)
    requires sh.first != sh.second && Reads(kvs, sh, Torn(error))
    ensures Yields(kvs, sh, order, names, Torn(error))
  {
    hide Carried;
    hide ParseInt64;
    hide HasBase;
    hide Mentioned;
    if error.BadValue? {
      var k := error.key;
      assert [k][..0] == [];
      assert WalkKeys(kvs, sh, [k]) == Bad(k);
      hide WalkKeys;
      var rest := OrderThrough([k], kvs.Keys);
      BadStays(kvs, sh, [k], rest);
      order, names := [k] + rest, [];
    } else {
      hide AllGood;
      order := SomeOrder(kvs.Keys);
      GoodSectionIsWalked(kvs, sh, order);
      WalkTracks(kvs, sh, order);
      hide WalkKeys;
      assert KeysOf(order) == kvs.Keys;
      var groups := WalkKeys(kvs, sh, order).groups;
      var name := error.name;
      assert Tracks(kvs, kvs.Keys, sh, groups, name);
      TracksSays(kvs, sh, groups, name);
      assert [name][..0] == [];
      assert WalkGroups(groups, [name]) == Torn(error);
      hide WalkGroups;
      var rest := OrderThrough([name], groups.Keys);
      TornStays(groups, [name], rest);
      names := [name] + rest;
    }
  }

  // --------------------------------------------------------------- main results

  /** Reading succeeds, in every walking order, exactly when every key that carries the label holds
      an int64 and every group mentioned has both of its bases. */
  lemma {:induction false} SucceedsIffComplete(kvs: map<string, string>, sh: Shape, r: ReadResult)
    requires Reads(kvs, sh, r)
    ensures r.Pairs? <==>
            && AllGood(kvs, kvs.Keys, sh.tag)
            && forall name: string :: Mentioned(kvs.Keys, sh.tag, name) ==>
                 HasBase(kvs.Keys, sh.tag, sh.first, name) && HasBase(kvs.Keys, sh.tag, sh.second, name)
  {
    hide Carried;
    hide ParseInt64;
    hide Mentioned;
    hide HasBase;
    hide Held;
    hide GoodValue;
    if r.Pairs? {
      forall name: string | Mentioned(kvs.Keys, sh.tag, name)
        ensures HasBase(kvs.Keys, sh.tag, sh.first, name) && HasBase(kvs.Keys, sh.tag, sh.second, name)
      {
        var p :| p in r.pairs && p.name == name;
        HeldHasBase(kvs, sh.tag, sh.first, name, p.first);
        HeldHasBase(kvs, sh.tag, sh.second, name, p.second);
      }
    }
  }

  /** No two keys give one group two different values. */
  ghost predicate OneValued(kvs: map<string, string>, sh: Shape) {
    forall base: string, name: string, n1, n2 :: (base == sh.first || base == sh.second)
      && Held(kvs, kvs.Keys, sh.tag, base, name, n1) && Held(kvs, kvs.Keys, sh.tag, base, name, n2)
      ==> n1 == n2
  }

  ghost predicate SamePairs(p1: seq<Pair>, p2: seq<Pair>) {
    |p1| == |p2| && forall p :: p in p1 <==> p in p2
  }

  /** The answers that are true of a section are exactly those that some walk of it yields. */
  lemma {:induction false} ReadsIffSomeWalkYields(kvs: map<string, string>, sh: Shape, r: ReadResult)
    requires sh.first != sh.second
    ensures Reads(kvs, sh, r) <==> exists order, names :: Yields(kvs, sh, order, names, r)
  {
    hide Reads;
    hide Yields;
    if Reads(kvs, sh, r) {
      var order, names;
      if r.Pairs? {
        order, names := PairsHaveAWalk(kvs, sh, r.pairs);
      } else {
        order, names := TornHasAWalk(kvs, sh, r.error);
      }
      assert Yields(kvs, sh, order, names, r);
    }
    if order, names :| Yields(kvs, sh, order, names, r) {
      YieldsIsRead(kvs, sh, order, names, r);
    }
  }

  /** A successful reading is independent of the order in which the maps are walked, the order of the
      groups aside, exactly when no two keys give one group two different values. */
  lemma {:induction false} OrderIsIrrelevantIffOneValued(
    kvs: map<string, string>, sh: Shape, order: seq<string>, names: seq<string>, pairs: seq<Pair>)
    requires sh.first != sh.second && Yields(kvs, sh, order, names, Pairs(pairs))
    ensures OneValued(kvs, sh) <==>
            forall order', names', other :: Yields(kvs, sh, order', names', Pairs(other)) ==> SamePairs(pairs, other)
  {
    hide Reads;
    hide Yields;
    hide OneValued;
    hide SamePairs;
    YieldsIsRead(kvs, sh, order, names, Pairs(pairs));
    AnswersAgreeIffOneValued(kvs, sh, pairs);
    if OneValued(kvs, sh) {
      forall order', names', other | Yields(kvs, sh, order', names', Pairs(other)) ensures SamePairs(pairs, other) {
        YieldsIsRead(kvs, sh, order', names', Pairs(other));
      }
    } else {
      var other :| Reads(kvs, sh, Pairs(other)) && !SamePairs(pairs, other);
      var order', names' := PairsHaveAWalk(kvs, sh, other);
      assert Yields(kvs, sh, order', names', Pairs(other));
    }
  }

  lemma {:induction false} AnswersAgreeIffOneValued(kvs: map<string, string>, sh: Shape, pairs: seq<Pair>)
    requires sh.first != sh.second && Reads(kvs, sh, Pairs(pairs))
    ensures OneValued(kvs, sh) <==> forall other :: Reads(kvs, sh, Pairs(other)) ==> SamePairs(pairs, other)
  {
    hide Held;
    hide Mentioned;
    hide AllGood;
    if OneValued(kvs, sh) {
      forall other | Reads(kvs, sh, Pairs(other)) ensures SamePairs(pairs, other) {
        Included(kvs, sh, pairs, other);
        Included(kvs, sh, other, pairs);
        SameLength(pairs, other);
      }
    } else {
      var base: string, name: string, n1, n2 :| (base == sh.first || base == sh.second) && n1 != n2
        && Held(kvs, kvs.Keys, sh.tag, base, name, n1) && Held(kvs, kvs.Keys, sh.tag, base, name, n2);
      var one := Revalued(kvs, sh, pairs, base, name, n1);
      var two := Revalued(kvs, sh, pairs, base, name, n2);
    }
  }

  lemma {:induction false} Included(kvs: map<string, string>, sh: Shape, p1: seq<Pair>, p2: seq<Pair>)
    requires OneValued(kvs, sh) && Reads(kvs, sh, Pairs(p1)) && Reads(kvs, sh, Pairs(p2))
    ensures forall p :: p in p1 ==> p in p2
  {
    hide Held;
    hide Mentioned;
    hide AllGood;
    forall p | p in p1 ensures p in p2 {
      assert Named(p1, p.name);
      assert Mentioned(kvs.Keys, sh.tag, p.name);
      var q :| q in p2 && q.name == p.name;
      assert q == p;
    }
  }

  function NamesIn(pairs: seq<Pair>): set<string> {
    set p | p in pairs :: p.name
  }

  lemma {:induction false} SameLength(p1: seq<Pair>, p2: seq<Pair>)
    requires forall i, j :: 0 <= i < j < |p1| ==> p1[i].name != p1[j].name
    requires forall i, j :: 0 <= i < j < |p2| ==> p2[i].name != p2[j].name
    requires forall p :: p in p1 <==> p in p2
    ensures |p1| == |p2|
  {
    CountNames(p1);
    CountNames(p2);
    assert NamesIn(p1) == NamesIn(p2);
  }

  lemma {:induction false} CountNames(pairs: seq<Pair>)
    requires forall i, j :: 0 <= i < j < |pairs| ==> pairs[i].name != pairs[j].name
    ensures |NamesIn(pairs)| == |pairs|
  {
    if pairs == [] {
      assert NamesIn(pairs) == {};
    } else {
      var n := |pairs| - 1;
      CountNames(pairs[..n]);
      assert pairs == pairs[..n] + [pairs[n]];
      assert NamesIn(pairs) == NamesIn(pairs[..n]) + {pairs[n].name};
      assert pairs[n].name !in NamesIn(pairs[..n]);
    }
  }

  /** An answer may have any of a group's values. */
  lemma {:induction false} Revalued(kvs: map<string, string>, sh: Shape, pairs: seq<Pair>, base: string, name: string, n: int)
    returns (other: seq<Pair>)
    requires sh.first != sh.second && Reads(kvs, sh, Pairs(pairs)) && (base == sh.first || base == sh.second)
    requires Held(kvs, kvs.Keys, sh.tag, base, name, n)
    ensures Reads(kvs, sh, Pairs(other))
    ensures exists p :: p in other && p.name == name && (if base == sh.first then p.first else p.second) == n
  {
    hide Held;
    hide Mentioned;
    hide AllGood;
    hide Lacks;
    hide GoodValue;
    HeldIsMentioned(kvs, sh.tag, base, name, n);
    assert Named(pairs, name);
    var i :| 0 <= i < |pairs| && pairs[i].name == name;
    assert pairs[i] in pairs;
    other := pairs[i := if base == sh.first then pairs[i].(first := n) else pairs[i].(second := n)];
    assert other[i] in other;
    forall p | p in other
      ensures Held(kvs, kvs.Keys, sh.tag, sh.first, p.name, p.first)
      ensures Held(kvs, kvs.Keys, sh.tag, sh.second, p.name, p.second)
    {
      if p != other[i] {
        assert p in pairs;
      }
    }
    SameNames(pairs, other);
  }

  lemma {:induction false} HeldIsMentioned(kvs: map<string, string>, tag: string, base: string, name: string, n: int)
    requires Held(kvs, kvs.Keys, tag, base, name, n)
    ensures Mentioned(kvs.Keys, tag, name)
  {
    hide Carried;
    hide ParseInt64;
  }

  lemma {:induction false} SameNames(pairs: seq<Pair>, other: seq<Pair>)
    requires |pairs| == |other| && forall j :: 0 <= j < |pairs| ==> other[j].name == pairs[j].name
    ensures forall name: string :: Named(pairs, name) <==> Named(other, name)
  {
    NamesFromPairs(pairs, other);
    NamesFromPairs(other, pairs);
  }

  lemma {:induction false} NamesFromPairs(p1: seq<Pair>, p2: seq<Pair>)
    requires |p1| == |p2| && forall j :: 0 <= j < |p1| ==> p1[j].name == p2[j].name
    ensures forall name: string :: Named(p1, name) ==> Named(p2, name)
  {
    forall name: string | Named(p1, name) ensures Named(p2, name) {
      var j :| 0 <= j < |p1| && p1[j].name == name;
      assert p2[j] in p2;
    }
  }

  /** The condition is needed: white space inside the braces makes two keys of one. */
  lemma {:induction false} TwoKeysOneMount(base: string, tag: string, value: string)
    requires '{' !in base && GoodLabel(tag) && ',' !in value
    ensures OneLabelKey(base, [' '] + tag, value) != OneLabelKey(base, tag, value)
    ensures Carried(OneLabelKey(base, [' '] + tag, value), tag) == Carried(OneLabelKey(base, tag, value), tag)
         == Some((base, value))
  {
    hide TrimSpace;
    hide IndexOf;
    hide ParsePair;
    OneLabelKeyReadsBack(base, tag, value);
    var k, body := OneLabelKey(base, [' '] + tag, value), LabelPair([' '] + tag, value);
    BracedKey(base, body);
    SplitNone(body, ',');
    OnePair(body);
    SpacedPairParses(tag, value);
    assert |k| == |OneLabelKey(base, tag, value)| + 1;
  }

  lemma {:induction false} SpacedPairParses(tag: string, value: string)
    requires GoodLabel(tag)
    ensures ParsePair(LabelPair([' '] + tag, value)) == Some((tag, value))
  {
    var quoted := ['"'] + value + ['"'];
    var pair := LabelPair([' '] + tag, value);
    IndexOfAppend([' '] + tag, '=', quoted);
    assert pair[..|tag| + 1] == [' '] + tag && pair[|tag| + 2..] == quoted;
    assert ([' '] + tag)[1..] == tag;
    assert TrimLeftSpace([' '] + tag) == tag;
    TrimSpaceIdentity(quoted);
    assert quoted[1..|quoted| - 1] == value;
  }

  // ------------------------------------------------------- what a key is read as

  /** White space, a label, white space, '=', white space, the value in quotes, white space. */
  ghost predicate IsPair(part: string, tag: string, value: string) {
    exists a: string, b: string, c: string, d: string ::
      && AllSpace(a) && AllSpace(b) && AllSpace(c) && AllSpace(d)
      && Trimmed(tag) && '=' !in a + tag + b
      && part == a + tag + b + "=" + (c + ("\"" + value + "\"") + d)
  }

  lemma {:induction false} PairParsed(part: string, a: string, tag: string, b: string, c: string, value: string, d: string)
    requires AllSpace(a) && AllSpace(b) && AllSpace(c) && AllSpace(d) && Trimmed(tag) && '=' !in a + tag + b
    requires part == a + tag + b + "=" + (c + ("\"" + value + "\"") + d)
    ensures ParsePair(part) == Some((tag, value))
  {
    hide TrimSpace;
    var head, tail := a + tag + b, c + ("\"" + value + "\"") + d;
    assert part == head + ['='] + tail;
    IndexOfAppend(head, '=', tail);
    assert part[..|head|] == head && part[|head| + 1..] == tail;
    TrimSpaceOf(a, tag, b);
    var quoted := "\"" + value + "\"";
    TrimSpaceOf(c, quoted, d);
    assert quoted[1..|quoted| - 1] == value;
  }

  lemma {:induction false} ParsedIsPair(part: string, tag: string, value: string)
    requires ParsePair(part) == Some((tag, value))
    ensures IsPair(part, tag, value)
  {
    hide TrimSpace;
    hide IsPair;
    hide IndexOf;
    var eq := IndexOf(part, '=');
    var head, tail := part[..eq], part[eq + 1..];
    var a, b := TrimSpaceTrims(head);
    var c, d := TrimSpaceTrims(tail);
    assert TrimSpace(tail) == "\"" + value + "\"";
    assert part == head + "=" + tail;
    hide ParsePair;
    PairIs(part, a, tag, b, c, value, d);
  }

  lemma {:induction false} PairIs(part: string, a: string, tag: string, b: string, c: string, value: string, d: string)
    requires AllSpace(a) && AllSpace(b) && AllSpace(c) && AllSpace(d) && Trimmed(tag) && '=' !in a + tag + b
    requires part == a + tag + b + "=" + (c + ("\"" + value + "\"") + d)
    ensures IsPair(part, tag, value)
  {
  }

  /** A part of a key's braces is read as a label and a value if and only if it is one. */
  lemma {:induction false} ParsesIffPair(part: string, tag: string, value: string)
    ensures ParsePair(part) == Some((tag, value)) <==> IsPair(part, tag, value)
  {
    if ParsePair(part) == Some((tag, value)) {
      ParsedIsPair(part, tag, value);
    }
    hide ParsePair;
    if IsPair(part, tag, value) {
      var a, b, c, d :| AllSpace(a) && AllSpace(b) && AllSpace(c) && AllSpace(d)
        && Trimmed(tag) && '=' !in a + tag + b && part == a + tag + b + "=" + (c + ("\"" + value + "\"") + d);
      PairParsed(part, a, tag, b, c, value, d);
    }
  }

  /** Every part is a label with its value. */
  ghost predicate ArePairs(parts: seq<string>, pairs: seq<(string, string)>) {
    |parts| == |pairs| && forall i :: 0 <= i < |parts| ==> IsPair(parts[i], pairs[i].0, pairs[i].1)
  }

  /** Each label of the pairs, with the last of its values. */
  ghost predicate LastValues(pairs: seq<(string, string)>, labels: map<string, string>) {
    && (forall tag :: tag in labels ==> exists i :: 0 <= i < |pairs| && pairs[i].0 == tag)
    && (forall i :: 0 <= i < |pairs| ==> pairs[i].0 in labels)
    && (forall i :: 0 <= i < |pairs| && (forall j :: i < j < |pairs| ==> pairs[j].0 != pairs[i].0) ==>
          labels[pairs[i].0] == pairs[i].1)
  }

  lemma {:induction false} LastValuesMore(pairs: seq<(string, string)>, labels: map<string, string>, p: (string, string))
    requires LastValues(pairs, labels)
    ensures LastValues(pairs + [p], labels[p.0 := p.1])
  {
    var more := pairs + [p];
    assert more[|pairs|] == p && forall i :: 0 <= i < |pairs| ==> more[i] == pairs[i];
    var now := labels[p.0 := p.1];
    forall tag | tag in now ensures exists i :: 0 <= i < |more| && more[i].0 == tag {
      if tag != p.0 {
        var i :| 0 <= i < |pairs| && pairs[i].0 == tag;
        assert more[i].0 == tag;
      }
    }
    forall i | 0 <= i < |more| && (forall j :: i < j < |more| ==> more[j].0 != more[i].0)
      ensures labels[p.0 := p.1][more[i].0] == more[i].1
    {
      if i < |pairs| {
        assert more[|pairs|].0 != more[i].0;
        assert forall j :: i < j < |pairs| ==> more[j].0 != more[i].0;
      }
    }
  }

  lemma {:induction false} PartsRead(parts: seq<string>, pairs: seq<(string, string)>)
    requires ArePairs(parts, pairs)
    ensures ParsePairs(parts).Some? && LastValues(pairs, ParsePairs(parts).value)
  {
    hide IsPair;
    hide ParsePair;
    hide LastValues;
    if parts == [] {
      NoLastValues();
    } else {
      var n := |parts| - 1;
      PartsRead(parts[..n], pairs[..n]);
      ParsesIffPair(parts[n], pairs[n].0, pairs[n].1);
      LastValuesMore(pairs[..n], ParsePairs(parts[..n]).value, pairs[n]);
      assert pairs[..n] + [pairs[n]] == pairs;
    }
  }

  lemma {:induction false} NoLastValues()
    ensures LastValues([], map[])
  {
  }

  lemma {:induction false} ReadParts(parts: seq<string>) returns (pairs: seq<(string, string)>)
    requires ParsePairs(parts).Some?
    ensures ArePairs(parts, pairs)
  {
    hide IsPair;
    hide ParsePair;
    if parts == [] {
      pairs := [];
    } else {
      var n := |parts| - 1;
      var before := ReadParts(parts[..n]);
      var p := ParsePair(parts[n]).value;
      ParsesIffPair(parts[n], p.0, p.1);
      pairs := before + [p];
    }
  }

  lemma {:induction false} SameLastValues(pairs: seq<(string, string)>, l1: map<string, string>, l2: map<string, string>)
    requires LastValues(pairs, l1) && LastValues(pairs, l2)
    ensures l1 == l2
  {
    forall tag | tag in l1 ensures tag in l2 && l1[tag] == l2[tag] {
      var i :| 0 <= i < |pairs| && pairs[i].0 == tag;
      LastOf(pairs, tag, i, l1, l2);
    }
    forall tag | tag in l2 ensures tag in l1 {
      var i :| 0 <= i < |pairs| && pairs[i].0 == tag;
    }
  }

  lemma {:induction false} LastOf(pairs: seq<(string, string)>, tag: string, i: nat, l1: map<string, string>, l2: map<string, string>)
    requires i < |pairs| && pairs[i].0 == tag && LastValues(pairs, l1) && LastValues(pairs, l2)
    ensures tag in l1 && tag in l2 && l1[tag] == l2[tag]
    decreases |pairs| - i
  {
    assert pairs[i].0 in l1 && pairs[i].0 in l2;
    if j :| i < j < |pairs| && pairs[j].0 == tag {
      LastOf(pairs, tag, j, l1, l2);
    }
  }

  /** What a labelled key is: a base without '{', and in braces nothing, or labels with their values, comma
      between; a label given twice has its last value. */
  ghost predicate IsLabeled(k: string, base: string, labels: map<string, string>) {
    exists body: string :: '{' !in base && k == base + "{" + body + "}" && IsBody(body, labels)
  }

  ghost predicate IsBody(body: string, labels: map<string, string>) {
    if body == "" then labels == map[]
    else exists pairs :: ArePairs(Split(body, ','), pairs) && LastValues(pairs, labels)
  }

  lemma {:induction false} BodyRead(body: string, labels: map<string, string>)
    requires body != ""
    ensures ParsePairs(Split(body, ',')) == Some(labels) <==> IsBody(body, labels)
  {
    hide ParsePairs;
    hide Split;
    hide ArePairs;
    hide LastValues;
    var parts := Split(body, ',');
    if ParsePairs(parts) == Some(labels) {
      var pairs := ReadParts(parts);
      PartsRead(parts, pairs);
    }
    if IsBody(body, labels) {
      var pairs :| ArePairs(parts, pairs) && LastValues(pairs, labels);
      PartsRead(parts, pairs);
      SameLastValues(pairs, labels, ParsePairs(parts).value);
    }
  }

  /** A key is read as a base and labels if and only if it is one. */
  lemma {:induction false} KeyReadsIff(k: string, base: string, labels: map<string, string>)
    ensures LabeledKeyOf(k) == Some(LabeledKey(base, labels)) <==> IsLabeled(k, base, labels)
  {
    hide IsBody;
    hide ParsePairs;
    hide Split;
    hide IndexOf;
    if LabeledKeyOf(k) == Some(LabeledKey(base, labels)) {
      var brace := IndexOf(k, '{');
      var body := k[brace + 1..|k| - 1];
      BracedBody(k, brace);
      if body == "" {
        EmptyBody(labels);
      } else {
        BodyRead(body, labels);
      }
    }
    if IsLabeled(k, base, labels) {
      var body :| '{' !in base && k == base + "{" + body + "}" && IsBody(body, labels);
      IndexOfAppend(base, '{', body + "}");
      assert k == base + ['{'] + (body + "}");
      assert k[..|base|] == base && k[|base| + 1..|k| - 1] == body;
      if body == "" {
        EmptyBody(labels);
      } else {
        BodyRead(body, labels);
      }
    }
  }

  lemma {:induction false} EmptyBody(labels: map<string, string>)
    ensures IsBody("", labels) <==> labels == map[]
  {
  }

  lemma {:induction false} BracedBody(k: string, brace: nat)
    requires brace < |k| && k[brace] == '{' && k[|k| - 1] == '}'
    ensures brace < |k| - 1 && k == k[..brace] + "{" + k[brace + 1..|k| - 1] + "}"
  {
  }

  // ---------------------------------------------------- which base gives which value

  /** A key of the section holds the value for the base and the name. */
  ghost predicate Tells(kvs: map<string, string>, base: string, tag: string, name: string, n: int) {
    exists k, labels: map<string, string> ::
      k in kvs && IsLabeled(k, base, labels) && tag in labels && labels[tag] == name && ParseInt64(kvs[k]) == Some(n)
  }

  lemma {:induction false} HeldIsTold(kvs: map<string, string>, base: string, tag: string, name: string, n: int)
    requires Held(kvs, kvs.Keys, tag, base, name, n)
    ensures Tells(kvs, base, tag, name, n)
  {
    hide LabeledKeyOf;
    hide IsLabeled;
    hide ParseInt64;
    var k :| k in kvs.Keys && Carried(k, tag) == Some((base, name)) && ParseInt64(kvs[k]) == Some(n);
    var lk := LabeledKeyOf(k).value;
    KeyReadsIff(k, lk.base, lk.labels);
  }

  /** The used and total bytes of a mount are those of its disk_used_bytes and disk_total_bytes keys. */
  lemma {:induction false} DisksAreTold(kvs: map<string, string>, pairs: seq<Pair>)
    requires Reads(kvs, DISKS, Pairs(pairs))
    ensures forall p :: p in pairs ==>
              Tells(kvs, "disk_used_bytes", "mount", p.name, p.first) && Tells(kvs, "disk_total_bytes", "mount", p.name, p.second)
  {
    hide Held;
    hide Tells;
    forall p | p in pairs
      ensures Tells(kvs, "disk_used_bytes", "mount", p.name, p.first) && Tells(kvs, "disk_total_bytes", "mount", p.name, p.second)
    {
      HeldIsTold(kvs, DISKS.first, DISKS.tag, p.name, p.first);
      HeldIsTold(kvs, DISKS.second, DISKS.tag, p.name, p.second);
    }
  }

  /** And the received and sent bytes of an interface. */
  lemma {:induction false} NetsAreTold(kvs: map<string, string>, pairs: seq<Pair>)
    requires Reads(kvs, NETS, Pairs(pairs))
    ensures forall p :: p in pairs ==>
              Tells(kvs, "net_rx_bytes", "iface", p.name, p.first) && Tells(kvs, "net_tx_bytes", "iface", p.name, p.second)
  {
    hide Held;
    hide Tells;
    forall p | p in pairs
      ensures Tells(kvs, "net_rx_bytes", "iface", p.name, p.first) && Tells(kvs, "net_tx_bytes", "iface", p.name, p.second)
    {
      HeldIsTold(kvs, NETS.first, NETS.tag, p.name, p.first);
      HeldIsTold(kvs, NETS.second, NETS.tag, p.name, p.second);
    }
  }
}
