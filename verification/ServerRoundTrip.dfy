/** From what the collector prints to the disks and interfaces the monitor stores: the tokenizer
    (internal/parser/parser.go) and the grouped readings (internal/parser/server.go) together. */
module ServerRoundTrip {
  import opened ServerSections
  import opened Text
  import opened Tokenizer

  /** The two lines the collector prints for one mount or interface. */
  function FirstLine(sh: Shape, p: Pair): (string, string) {
    (OneLabelKey(sh.first, sh.tag, p.name), IntText(p.first))
  }

  function SecondLine(sh: Shape, p: Pair): (string, string) {
    (OneLabelKey(sh.second, sh.tag, p.name), IntText(p.second))
  }

  predicate IsInt64(n: int) {
    -INT64_MAX - 1 <= n <= INT64_MAX
  }

  predicate GoodShape(sh: Shape) {
    sh.first != sh.second && '{' !in sh.first && '{' !in sh.second && GoodLabel(sh.tag)
  }

  /** Groups with distinct names, no comma in them. */
  ghost predicate Printed(groups: seq<Pair>) {
    && (forall i, j :: 0 <= i < j < |groups| ==> groups[i].name != groups[j].name)
    && (forall g :: g in groups ==> ',' !in g.name && IsInt64(g.first) && IsInt64(g.second))
  }

  /** Both lines of every group are among `pairs`, in whatever order; the other pairs do not carry
      the label. */
  ghost predicate Prints(pairs: seq<(string, string)>, sh: Shape, groups: seq<Pair>) {
    && (forall g :: g in groups ==> FirstLine(sh, g) in pairs && SecondLine(sh, g) in pairs)
    && (forall p :: p in pairs ==> Carried(p.0, sh.tag).None? || IsLineOf(p, sh, groups))
  }

  ghost predicate IsLineOf(p: (string, string), sh: Shape, groups: seq<Pair>) {
    exists g :: g in groups && (p == FirstLine(sh, g) || p == SecondLine(sh, g))
  }

  lemma {:induction false} LinesCarry(sh: Shape, g: Pair)
    requires GoodShape(sh) && ',' !in g.name && IsInt64(g.first) && IsInt64(g.second)
    ensures Carried(FirstLine(sh, g).0, sh.tag) == Some((sh.first, g.name))
    ensures Carried(SecondLine(sh, g).0, sh.tag) == Some((sh.second, g.name))
    ensures ParseInt64(FirstLine(sh, g).1) == Some(g.first)
    ensures ParseInt64(SecondLine(sh, g).1) == Some(g.second)
  {
    hide LabeledKeyOf;
    hide ParseInt64;
    hide IntText;
    hide OneLabelKey;
    OneLabelKeyReadsBack(sh.first, sh.tag, g.name);
    OneLabelKeyReadsBack(sh.second, sh.tag, g.name);
    ParseIntText(g.first);
    ParseIntText(g.second);
  }

  lemma {:induction false} MapOfPairs(pairs: seq<(string, string)>)
    ensures forall k :: k in MapOf(pairs) ==> (k, MapOf(pairs)[k]) in pairs
    ensures forall p :: p in pairs ==> p.0 in MapOf(pairs)
  {
    if pairs != [] {
      var n := |pairs| - 1;
      MapOfPairs(pairs[..n]);
      assert pairs == pairs[..n] + [pairs[n]];
      forall k | k in MapOf(pairs) ensures (k, MapOf(pairs)[k]) in pairs {
        if k == pairs[n].0 {
          assert (k, MapOf(pairs)[k]) == pairs[n];
        } else {
          assert (k, MapOf(pairs)[k]) in pairs[..n];
        }
      }
    }
  }

  /** What a printed section holds for a label is exactly what was printed. */
  lemma {:induction false} HeldIsPrinted(pairs: seq<(string, string)>, sh: Shape, groups: seq<Pair>, k: string)
    returns (g: Pair)
    requires GoodShape(sh) && Printed(groups) && Prints(pairs, sh, groups)
    requires k in MapOf(pairs) && Carried(k, sh.tag).Some?
    ensures g in groups && Carried(k, sh.tag).value.1 == g.name
    ensures ParseInt64(MapOf(pairs)[k]) == Some(if Carried(k, sh.tag).value.0 == sh.first then g.first else g.second)
    ensures Carried(k, sh.tag).value.0 == sh.first || Carried(k, sh.tag).value.0 == sh.second
  {
    hide Carried;
    hide ParseInt64;
    hide MapOf;
    hide FirstLine;
    hide SecondLine;
    MapOfPairs(pairs);
    var p := (k, MapOf(pairs)[k]);
    assert IsLineOf(p, sh, groups);
    g :| g in groups && (p == FirstLine(sh, g) || p == SecondLine(sh, g));
    LinesCarry(sh, g);
  }

  lemma {:induction false} PrintedIsHeld(pairs: seq<(string, string)>, sh: Shape, groups: seq<Pair>, g: Pair)
    requires GoodShape(sh) && Printed(groups) && Prints(pairs, sh, groups) && g in groups
    ensures var keys := MapOf(pairs).Keys;
            && Mentioned(keys, sh.tag, g.name)
            && HasBase(keys, sh.tag, sh.first, g.name)
            && HasBase(keys, sh.tag, sh.second, g.name)
  {
    hide Carried;
    hide ParseInt64;
    hide MapOf;
    hide FirstLine;
    hide SecondLine;
    MapOfPairs(pairs);
    LinesCarry(sh, g);
    assert FirstLine(sh, g).0 in MapOf(pairs) && SecondLine(sh, g).0 in MapOf(pairs);
  }

  /** Every reading of a printed section succeeds, and gives the printed groups, each once. */
  lemma {:induction false} PrintedGroupsReadBack(pairs: seq<(string, string)>, sh: Shape, groups: seq<Pair>, r: ReadResult)
    requires GoodShape(sh) && Printed(groups) && Prints(pairs, sh, groups)
    requires Reads(MapOf(pairs), sh, r)
    ensures r.Pairs? && SamePairs(r.pairs, groups)
  {
    hide Carried;
    hide ParseInt64;
    hide MapOf;
    hide Prints;
    var kvs := MapOf(pairs);
    forall k | k in kvs ensures GoodValue(kvs, sh.tag, k) {
      if Carried(k, sh.tag).Some? {
        var g := HeldIsPrinted(pairs, sh, groups, k);
      }
    }
    forall name: string | Mentioned(kvs.Keys, sh.tag, name)
      ensures HasBase(kvs.Keys, sh.tag, sh.first, name) && HasBase(kvs.Keys, sh.tag, sh.second, name)
    {
      var k :| k in kvs.Keys && Carried(k, sh.tag).Some? && Carried(k, sh.tag).value.1 == name;
      var g := HeldIsPrinted(pairs, sh, groups, k);
      PrintedIsHeld(pairs, sh, groups, g);
    }
    SucceedsIffComplete(kvs, sh, r);
    forall p | p in r.pairs ensures p in groups {
      ReadIsPrinted(pairs, sh, groups, p);
    }
    forall g | g in groups ensures g in r.pairs {
      PrintedIsHeld(pairs, sh, groups, g);
      assert Named(r.pairs, g.name);
      var p :| p in r.pairs && p.name == g.name;
      assert p in groups;
    }
    SameLength(r.pairs, groups);
  }

  lemma {:induction false} ReadIsPrinted(pairs: seq<(string, string)>, sh: Shape, groups: seq<Pair>, p: Pair)
    requires GoodShape(sh) && Printed(groups) && Prints(pairs, sh, groups)
    requires Held(MapOf(pairs), MapOf(pairs).Keys, sh.tag, sh.first, p.name, p.first)
    requires Held(MapOf(pairs), MapOf(pairs).Keys, sh.tag, sh.second, p.name, p.second)
    ensures p in groups
  {
    hide Carried;
    hide ParseInt64;
    hide MapOf;
    hide Prints;
    var kvs := MapOf(pairs);
    var k1 :| k1 in kvs && Carried(k1, sh.tag) == Some((sh.first, p.name)) && ParseInt64(kvs[k1]) == Some(p.first);
    var k2 :| k2 in kvs && Carried(k2, sh.tag) == Some((sh.second, p.name)) && ParseInt64(kvs[k2]) == Some(p.second);
    var g1 := HeldIsPrinted(pairs, sh, groups, k1);
    var g2 := HeldIsPrinted(pairs, sh, groups, k2);
    assert g1 == g2 == p;
  }

  /** End to end: a printed report tokenizes, and its section `i` reads back as exactly the disks (or
      interfaces) that were printed there, whatever order the pairs were printed in and whatever order
      the maps are walked in. */
  lemma {:induction false} ReportReadsBack(
    doc: seq<Block>, i: nat, sh: Shape, groups: seq<Pair>, suffix: string, tokens: TokenResult, r: ReadResult)
    requires GoodDoc(doc) && Printable(doc) && (suffix == "" || suffix[0] == '\n') && i < |doc|
    requires GoodShape(sh) && Printed(groups) && Prints(doc[i].pairs, sh, groups)
    requires Verdict(Split(Lined(DocLines(doc)) + (END_LINE + suffix), '\n'), tokens)
    requires tokens.Tokens? && i < |tokens.sections| ==> Reads(tokens.sections[i].kvs, sh, r)
    ensures tokens.Tokens? && |tokens.sections| == |doc| && tokens.sections[i].name == doc[i].name
    ensures r.Pairs? && SamePairs(r.pairs, groups)
  {
    hide Verdict;
    hide Reads;
    hide GoodDoc;
    hide Printable;
    hide Printed;
    hide Prints;
    hide MapOf;
    TokenizeUndoesPrinting(doc, suffix, tokens);
    PrintedGroupsReadBack(doc[i].pairs, sh, groups, r);
  }

  /** The two shapes the server section uses are fit to print, and a name free of braces makes keys
      that the tokenizer finds the end of. */
  lemma {:induction false} ServerShapesAreGood()
    ensures GoodShape(DISKS) && GoodShape(NETS)
  {
    DisksAreGood();
    NetsAreGood();
  }

  lemma {:induction false} DisksAreGood()
    ensures GoodShape(DISKS)
  {
    assert DISKS.first[5] != DISKS.second[5];
  }

  lemma {:induction false} NetsAreGood()
    ensures GoodShape(NETS)
  {
    assert NETS.first[4] != NETS.second[4];
  }

  predicate NoBraces(s: string) {
    '{' !in s && '}' !in s
  }

  lemma {:induction false} DepthOverPlain(before: string, s: string, d: nat)
    requires NoBraces(s) && DepthAfter(before, 0) == Some(d) && (d == 0 ==> '=' !in s)
    ensures DepthAfter(before + s, 0) == Some(d)
  {
    if s == "" {
      assert before + s == before;
    } else {
      var n := |s| - 1;
      DepthOverPlain(before, s[..n], d);
      assert (before + s)[..|before| + n] == before + s[..n];
      assert (before + s)[|before| + n] == s[n];
    }
  }

  lemma {:induction false} KeysAreGood(base: string, tag: string, name: string)
    requires NoBraces(base) && '=' !in base && NoBraces(tag) && NoBraces(name)
    ensures GoodKey(OneLabelKey(base, tag, name))
  {
    DepthOverPlain("", base, 0);
    assert "" + base == base;
    var begun := base + ['{'];
    assert begun[..|base|] == base;
    var body := LabelPair(tag, name);
    assert NoBraces(body);
    DepthOverPlain(begun, body, 1);
    var k := begun + body + ['}'];
    assert k[..|k| - 1] == begun + body;
    assert k == OneLabelKey(base, tag, name);
  }
}
