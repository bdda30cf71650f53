/** Which benches and sites a collector report names (internal/parser/bench.go:12-51), and from which
    section each is then read (internal/parser/bench.go:60-66, 119-124; internal/parser/parser.go:29-39). */
module Benches {
  import opened Text
  import opened Tokenizer

  const BENCH := "BENCH:"
  const SITE := "SITE:"

  function BenchOf(name: string): Option<string> {
    if HasPrefix(name, BENCH) then Some(name[|BENCH|..]) else None
  }

  /** The bench ends at the first ':'. */
  function SiteOf(name: string): Option<(string, string)> {
    if !HasPrefix(name, SITE) then None
    else
      var rest := name[|SITE|..];
      var colon := IndexOf(rest, ':');
      if colon < 0 then None else Some((rest[..colon], rest[colon + 1..]))
  }

  function BenchSection(bench: string): string {
    BENCH + bench
  }

  function SiteSection(bench: string, site: string): string {
    SITE + bench + [':'] + site
  }

  /** `f` of the sections' names, in order, where it is defined. */
  function Listed<T>(f: string -> Option<T>, sections: seq<Section>): seq<T> {
    if sections == [] then []
    else
      var last := f(sections[|sections| - 1].name);
      Listed(f, sections[..|sections| - 1]) + if last.Some? then [last.value] else []
  }

  method BenchNames(sections: seq<Section>) returns (out: seq<string>)
    ensures out == Listed(BenchOf, sections)
  {
    out := [];
    for i := 0 to |sections|
      invariant out == Listed(BenchOf, sections[..i])
    {
      assert sections[..i + 1][..i] == sections[..i];
      if HasPrefix(sections[i].name, BENCH) {
        out := out + [sections[i].name[|BENCH|..]];
      }
    }
    assert sections[..|sections|] == sections;
  }

  method SiteNamesFor(sections: seq<Section>) returns (out: seq<(string, string)>)
    ensures out == Listed(SiteOf, sections)
  {
    out := [];
    for i := 0 to |sections|
      invariant out == Listed(SiteOf, sections[..i])
    {
      assert sections[..i + 1][..i] == sections[..i];
      if !HasPrefix(sections[i].name, SITE) {
        continue;
      }
      var rest := sections[i].name[|SITE|..];
      var colon := IndexOf(rest, ':');
      if colon < 0 {
        continue;
      }
      out := out + [(rest[..colon], rest[colon + 1..])];
    }
    assert sections[..|sections|] == sections;
  }

  lemma {:induction false} ListedIsFrom<T>(f: string -> Option<T>, sections: seq<Section>, x: T)
    ensures x in Listed(f, sections) <==> exists s :: s in sections && f(s.name) == Some(x)
  {
    if sections != [] {
      var n := |sections| - 1;
      ListedIsFrom(f, sections[..n], x);
      assert sections == sections[..n] + [sections[n]];
      assert forall s :: s in sections <==> s in sections[..n] || s == sections[n];
    }
  }

  ghost predicate Injective<T(!new)>(f: string -> Option<T>) {
    forall a, b :: f(a).Some? && f(a) == f(b) ==> a == b
  }

  lemma {:induction false} ListedAreDistinct<T(!new)>(f: string -> Option<T>, sections: seq<Section>)
    requires Injective(f)
    requires forall i, j :: 0 <= i < j < |sections| ==> sections[i].name != sections[j].name
    ensures var xs := Listed(f, sections);
            forall i, j :: 0 <= i < j < |xs| ==> xs[i] != xs[j]
  {
    if sections != [] {
      var n := |sections| - 1;
      ListedAreDistinct(f, sections[..n]);
      var last := f(sections[n].name);
      var before := Listed(f, sections[..n]);
      if last.Some? {
        assert Listed(f, sections) == before + [last.value];
        forall s | s in sections[..n] ensures f(s.name) != last {
          var i :| 0 <= i < n && sections[..n][i] == s;
          assert sections[i].name != sections[n].name;
        }
        ListedIsFrom(f, sections[..n], last.value);
        assert last.value !in before;
      } else {
        assert Listed(f, sections) == before;
      }
    }
  }

  lemma {:induction false} BenchOfSection(name: string, bench: string)
    ensures BenchOf(name) == Some(bench) <==> name == BenchSection(bench)
  {
    if HasPrefix(name, BENCH) {
      assert name == BENCH + name[|BENCH|..];
    }
    assert BenchSection(bench)[..|BENCH|] == BENCH && BenchSection(bench)[|BENCH|..] == bench;
  }

  /** The section printed for a site is attributed to its bench if and only if the bench's name has no
      ':'; what is read for an attributed pair is always the section it came from. */
  lemma {:induction false} SiteOfSection(bench: string, site: string)
    ensures SiteOf(SiteSection(bench, site)) == Some((bench, site)) <==> ':' !in bench
    ensures forall name: string :: SiteOf(name) == Some((bench, site)) ==> name == SiteSection(bench, site)
  {
    hide IndexOf;
    SiteIsCut(bench, site);
    if ':' !in bench {
      IndexOfAppend(bench, ':', site);
      CutAt(bench, site);
    }
    forall name: string | SiteOf(name) == Some((bench, site)) ensures name == SiteSection(bench, site) {
      NameOfSite(name);
    }
  }

  lemma {:induction false} SiteIsCut(bench: string, site: string)
    ensures var rest := bench + [':'] + site; var colon := IndexOf(rest, ':');
            colon >= 0 && SiteOf(SiteSection(bench, site)) == Some((rest[..colon], rest[colon + 1..]))
            && (':' in bench ==> ':' !in rest[..colon])
  {
    hide IndexOf;
    var rest := bench + [':'] + site;
    assert SiteSection(bench, site) == SITE + rest;
    assert (SITE + rest)[..|SITE|] == SITE && (SITE + rest)[|SITE|..] == rest;
    assert rest[|bench|] == ':';
  }

  lemma {:induction false} CutAt(bench: string, site: string)
    ensures (bench + [':'] + site)[..|bench|] == bench && (bench + [':'] + site)[|bench| + 1..] == site
  {
  }

  lemma {:induction false} NameOfSite(name: string)
    requires SiteOf(name).Some?
    ensures name == SiteSection(SiteOf(name).value.0, SiteOf(name).value.1) && ':' !in SiteOf(name).value.0
  {
    hide IndexOf;
    var r := name[|SITE|..];
    var colon := IndexOf(r, ':');
    assert name == SITE + r;
    assert r == r[..colon] + [':'] + r[colon + 1..];
  }

  lemma {:induction false} NamesDecideSections()
    ensures Injective(BenchOf) && Injective(SiteOf)
  {
    forall a, b | BenchOf(a).Some? && BenchOf(a) == BenchOf(b) ensures a == b {
      BenchOfSection(a, BenchOf(a).value);
      BenchOfSection(b, BenchOf(a).value);
    }
    forall a, b | SiteOf(a).Some? && SiteOf(a) == SiteOf(b) ensures a == b {
      var (bench, site) := SiteOf(a).value;
      SiteOfSection(bench, site);
    }
  }

  /** In any report the tokenizer accepts, every bench section is listed once, and the section found for
      a listed bench is the one it was listed for. */
  lemma {:induction false} EachBenchReadOnce(lines: seq<string>, sections: seq<Section>)
    requires Verdict(lines, Tokens(sections))
    ensures var names := Listed(BenchOf, sections);
            && (forall i, j :: 0 <= i < j < |names| ==> names[i] != names[j])
            && (forall bench: string :: bench in names <==> exists s :: s in sections && s.name == BenchSection(bench))
            && forall s1, s2 :: s1 in sections && s2 in sections && s1.name == s2.name ==> s1 == s2
  {
    hide Verdict;
    AcceptedNamesAreDistinct(lines, sections);
    NamesDecideSections();
    ListedAreDistinct(BenchOf, sections);
    var names := Listed(BenchOf, sections);
    forall bench: string
      ensures bench in names <==> exists s :: s in sections && s.name == BenchSection(bench)
    {
      ListedIsFrom(BenchOf, sections, bench);
      forall s: Section ensures BenchOf(s.name) == Some(bench) <==> s.name == BenchSection(bench) {
        BenchOfSection(s.name, bench);
      }
    }
  }

  /** The same for sites: a site section is listed once, as the pair that it is then read for. */
  lemma {:induction false} EachSiteReadOnce(lines: seq<string>, sections: seq<Section>)
    requires Verdict(lines, Tokens(sections))
    ensures var pairs := Listed(SiteOf, sections);
            && (forall i, j :: 0 <= i < j < |pairs| ==> pairs[i] != pairs[j])
            && (forall p :: p in pairs ==> ':' !in p.0 && exists s :: s in sections && s.name == SiteSection(p.0, p.1))
            && forall s: Section, bench: string, site: string ::
                 s in sections && s.name == SiteSection(bench, site) && ':' !in bench ==> (bench, site) in pairs
  {
    hide Verdict;
    hide SiteOf;
    AcceptedNamesAreDistinct(lines, sections);
    NamesDecideSections();
    ListedAreDistinct(SiteOf, sections);
    var pairs := Listed(SiteOf, sections);
    forall p | p in pairs
      ensures ':' !in p.0 && exists s :: s in sections && s.name == SiteSection(p.0, p.1)
    {
      ListedIsFrom(SiteOf, sections, p);
      SiteOfSection(p.0, p.1);
      var s :| s in sections && SiteOf(s.name) == Some(p);
      assert s.name == SiteSection(p.0, p.1);
    }
    forall s: Section, bench: string, site: string |
      s in sections && s.name == SiteSection(bench, site) && ':' !in bench
      ensures (bench, site) in pairs
    {
      SiteOfSection(bench, site);
      ListedIsFrom(SiteOf, sections, (bench, site));
    }
  }

  /** The items listed are those of the sections at `place`, in section order. */
  ghost predicate ListedAt<T(!new)>(f: string -> Option<T>, sections: seq<Section>, xs: seq<T>, place: seq<nat>) {
    && |place| == |xs|
    && (forall j, k :: 0 <= j < k < |place| ==> place[j] < place[k])
    && (forall j :: 0 <= j < |place| ==> place[j] < |sections| && f(sections[place[j]].name) == Some(xs[j]))
    && (forall i: nat :: i < |sections| && f(sections[i].name).Some? ==> i in place)
  }

  lemma {:induction false} ListedMore<T(!new)>(f: string -> Option<T>, before: seq<Section>, last: Section, xs: seq<T>, place: seq<nat>)
    requires ListedAt(f, before, xs, place)
    ensures f(last.name).None? ==> ListedAt(f, before + [last], xs, place)
    ensures f(last.name).Some? ==> ListedAt(f, before + [last], xs + [f(last.name).value], place + [|before|])
  {
    var sections := before + [last];
    assert forall i :: 0 <= i < |before| ==> sections[i] == before[i];
    if f(last.name).Some? {
      var more := place + [|before|];
      assert more[|place|] == |before| && forall j :: 0 <= j < |place| ==> more[j] == place[j];
      forall i: nat | i < |sections| && f(sections[i].name).Some? ensures i in more {
        if i < |before| {
          assert i in place;
        }
      }
    }
  }

  lemma {:induction false} ListedInOrder<T(!new)>(f: string -> Option<T>, sections: seq<Section>) returns (place: seq<nat>)
    ensures ListedAt(f, sections, Listed(f, sections), place)
  {
    if sections == [] {
      place := [];
    } else {
      hide ListedAt;
      var n := |sections| - 1;
      assert sections == sections[..n] + [sections[n]];
      var before := ListedInOrder(f, sections[..n]);
      ListedMore(f, sections[..n], sections[n], Listed(f, sections[..n]), before);
      place := if f(sections[n].name).Some? then before + [n] else before;
      assert Listed(f, sections[..n]) + [] == Listed(f, sections[..n]);
    }
  }

  /** The listed benches in the order of their sections: the name of each is that of its section after
      `BENCH:`, and every such section has one. */
  lemma {:induction false} BenchesInOrder(sections: seq<Section>) returns (place: seq<nat>)
    ensures var names := Listed(BenchOf, sections);
            && |place| == |names|
            && (forall j, k :: 0 <= j < k < |place| ==> place[j] < place[k])
            && (forall j :: 0 <= j < |place| ==> place[j] < |sections| && sections[place[j]].name == "BENCH:" + names[j])
            && (forall i: nat, bench: string :: i < |sections| && sections[i].name == "BENCH:" + bench ==> i in place)
  {
    hide Listed;
    hide BenchOf;
    place := ListedInOrder(BenchOf, sections);
    var names := Listed(BenchOf, sections);
    forall j | 0 <= j < |place| ensures sections[place[j]].name == "BENCH:" + names[j] {
      BenchOfSection(sections[place[j]].name, names[j]);
    }
    forall i: nat, bench: string | i < |sections| && sections[i].name == "BENCH:" + bench ensures i in place {
      BenchOfSection(sections[i].name, bench);
    }
  }

  /** And the sites: each pair is that of its section, `SITE:` with the bench up to the first ':', and every
      such section has one. */
  lemma {:induction false} SitesInOrder(sections: seq<Section>) returns (place: seq<nat>)
    ensures var pairs := Listed(SiteOf, sections);
            && |place| == |pairs|
            && (forall j, k :: 0 <= j < k < |place| ==> place[j] < place[k])
            && (forall j :: 0 <= j < |place| ==>
                  && place[j] < |sections| && ':' !in pairs[j].0
                  && sections[place[j]].name == "SITE:" + pairs[j].0 + [':'] + pairs[j].1)
            && (forall i: nat, bench: string, site: string ::
                  i < |sections| && sections[i].name == "SITE:" + bench + [':'] + site ==> i in place)
  {
    hide Listed;
    hide SiteOf;
    place := ListedInOrder(SiteOf, sections);
    var pairs := Listed(SiteOf, sections);
    forall j | 0 <= j < |place|
      ensures ':' !in pairs[j].0 && sections[place[j]].name == "SITE:" + pairs[j].0 + [':'] + pairs[j].1
    {
      NameOfSite(sections[place[j]].name);
    }
    forall i: nat, bench: string, site: string | i < |sections| && sections[i].name == "SITE:" + bench + [':'] + site
      ensures i in place
    {
      SiteIsCut(bench, site);
    }
  }
}
