/** The collector-output tokenizer (internal/parser/parser.go). */
module Tokenizer {
  import opened Text

  datatype Section = Section(name: string, kvs: map<string, string>)

  datatype TokenError = EmptyName | DuplicateSection(name: string) | OutsideSection | Malformed
  datatype TokenResult =
    | Tokens(sections: seq<Section>)
    | Failed(lineNo: nat, error: TokenError)
    | MissingEnd

  const HASHES := "###"
  const END_LINE := "###END"

  // -------------------------------------------------------------- one key=value

  /** Brace depth after `s`, begun at `depth`; None once '=' occurs at depth zero. */
  function DepthAfter(s: string, depth: nat): Option<nat> {
    if s == "" then Some(depth)
    else
      match DepthAfter(s[..|s| - 1], depth)
      case None => None
      case Some(d) =>
        var c := s[|s| - 1];
        if c == '{' then Some(d + 1)
        else if c == '}' then Some(if d > 0 then d - 1 else 0)
        else if c == '=' && d == 0 then None
        else Some(d)
  }

  /** A key the tokenizer can find the end of: its braces close, and it holds no '=' outside them. */
  predicate GoodKey(key: string) {
    DepthAfter(key, 0) == Some(0)
  }

  /** splitKV: the split at the first '=' outside braces. */
  method SplitKV(line: string) returns (r: Option<(string, string)>)
    ensures r.Some? <==> DepthAfter(line, 0).None?
    ensures r.Some? ==> GoodKey(r.value.0) && line == r.value.0 + ['='] + r.value.1
  {
    var depth := 0;
    for i := 0 to |line|
      invariant DepthAfter(line[..i], 0) == Some(depth)
    {
      assert line[..i + 1][..i] == line[..i];
      if line[i] == '{' {
        depth := depth + 1;
      } else if line[i] == '}' {
        if depth > 0 {
          depth := depth - 1;
        }
      } else if line[i] == '=' && depth == 0 {
        assert line == line[..i] + ['='] + line[i + 1..];
        DepthStaysNone(line, i + 1);
        return Some((line[..i], line[i + 1..]));
      }
    }
    assert line[..|line|] == line;
    return None;
  }

  lemma {:induction false} DepthStaysNone(s: string, i: nat)
    requires i <= |s| && DepthAfter(s[..i], 0).None?
    ensures DepthAfter(s, 0).None?
  {
    if i == |s| {
      assert s[..i] == s;
    } else {
      assert s[..|s| - 1][..i] == s[..i];
      DepthStaysNone(s[..|s| - 1], i);
    }
  }

  /** The key of a line is determined: no other good key is cut off by an '='. */
  lemma {:induction false} KeyIsUnique(k1: string, v1: string, k2: string, v2: string)
    requires GoodKey(k1) && GoodKey(k2) && k1 + ['='] + v1 == k2 + ['='] + v2
    ensures k1 == k2 && v1 == v2
  {
    var line := k1 + ['='] + v1;
    if |k1| < |k2| {
      GoodKeyEnds(k1, k2, v1, v2);
    } else if |k2| < |k1| {
      GoodKeyEnds(k2, k1, v2, v1);
    } else {
      assert line[..|k1|] == k1 && line[..|k2|] == k2;
      assert line[|k1| + 1..] == v1 && line[|k2| + 1..] == v2;
    }
  }

  lemma {:induction false} GoodKeyEnds(k1: string, k2: string, v1: string, v2: string)
    requires GoodKey(k1) && |k1| < |k2| && k1 + ['='] + v1 == k2 + ['='] + v2
    ensures !GoodKey(k2)
  {
    var line := k1 + ['='] + v1;
    assert k2[..|k1| + 1] == line[..|k1| + 1] == k1 + ['='];
    assert (k1 + ['='])[..|k1|] == k1;
    DepthStaysNone(k2, |k1| + 1);
  }

  lemma {:induction false} GoodKeySplits(key: string, value: string)
    requires GoodKey(key)
    ensures DepthAfter(key + ['='] + value, 0).None?
  {
    var line := key + ['='] + value;
    assert line[..|key| + 1] == key + ['='] && (key + ['='])[..|key|] == key;
    DepthStaysNone(line, |key| + 1);
  }

  // ------------------------------------------------------------ line by line

  /** The sections closed so far, the one open, and the names seen. */
  datatype State = State(done: seq<Section>, current: Option<Section>, seen: set<string>)

  const INITIAL := State([], None, {})

  function Closed(st: State): seq<Section> {
    st.done + if st.current.Some? then [st.current.value] else []
  }

  datatype Step = Next(st: State) | Fail(error: TokenError)

  ghost predicate IsSplit(line: string, key: string, value: string) {
    GoodKey(key) && line == key + ['='] + value
  }

  /** What a non-blank line other than the end marker does to the state. */
  ghost predicate StepsTo(st: State, line: string, r: Step) {
    if HasPrefix(line, HASHES) then
      var name := line[3..];
      r == if name == "" then Fail(EmptyName)
           else if name in st.seen then Fail(DuplicateSection(name))
           else Next(State(Closed(st), Some(Section(name, map[])), st.seen + {name}))
    else if st.current.None? then r == Fail(OutsideSection)
    else if DepthAfter(line, 0).Some? then r == Fail(Malformed)
    else
      exists key, value :: IsSplit(line, key, value)
        && r == Next(st.(current := Some(Section(st.current.value.name, st.current.value.kvs[key := value]))))
  }

  method StepLine(st: State, line: string) returns (r: Step)
    ensures StepsTo(st, line, r)
  {
    if HasPrefix(line, HASHES) {
      var name := line[3..];
      if name == "" {
        return Fail(EmptyName);
      }
      if name in st.seen {
        return Fail(DuplicateSection(name));
      }
      return Next(State(Closed(st), Some(Section(name, map[])), st.seen + {name}));
    }
    if st.current.None? {
      return Fail(OutsideSection);
    }
    var kv := SplitKV(line);
    if kv.None? {
      return Fail(Malformed);
    }
    var (key, value) := kv.value;
    assert IsSplit(line, key, value);
    r := Next(st.(current := Some(Section(st.current.value.name, st.current.value.kvs[key := value]))));
  }

  lemma {:induction false} StepIsUnique(st: State, line: string, r1: Step, r2: Step)
    requires StepsTo(st, line, r1) && StepsTo(st, line, r2)
    ensures r1 == r2
  {
    hide DepthAfter;
    if !HasPrefix(line, HASHES) && st.current.Some? && DepthAfter(line, 0).None? {
      var k1, v1 :| IsSplit(line, k1, v1)
        && r1 == Next(st.(current := Some(Section(st.current.value.name, st.current.value.kvs[k1 := v1]))));
      var k2, v2 :| IsSplit(line, k2, v2)
        && r2 == Next(st.(current := Some(Section(st.current.value.name, st.current.value.kvs[k2 := v2]))));
      KeyIsUnique(k1, v1, k2, v2);
    }
  }

  function Init(lines: seq<string>): seq<string>
    requires lines != []
  {
    lines[..|lines| - 1]
  }

  function Last(lines: seq<string>): string
    requires lines != []
  {
    lines[|lines| - 1]
  }

  /** The state after some non-blank lines, none of them the end marker. */
  ghost predicate Reaches(sig: seq<string>, st: State) {
    if sig == [] then st == INITIAL
    else exists before: State :: Reaches(Init(sig), before) && StepsTo(before, Last(sig), Next(st))
  }

  lemma {:induction false} ReachesIsUnique(sig: seq<string>, s1: State, s2: State)
    requires Reaches(sig, s1) && Reaches(sig, s2)
    ensures s1 == s2
  {
    hide StepsTo;
    if sig != [] {
      var b1: State :| Reaches(Init(sig), b1) && StepsTo(b1, Last(sig), Next(s1));
      var b2: State :| Reaches(Init(sig), b2) && StepsTo(b2, Last(sig), Next(s2));
      ReachesIsUnique(Init(sig), b1, b2);
      StepIsUnique(b1, Last(sig), Next(s1), Next(s2));
    }
  }

  /** The lines that count: without trailing CRs, blank ones dropped. */
  function Significant(lines: seq<string>): seq<string> {
    if lines == [] then []
    else
      var line := TrimCRs(lines[|lines| - 1]);
      Significant(lines[..|lines| - 1]) + if line == "" then [] else [line]
  }

  /** The first end marker, or the number of lines. */
  function EndAt(lines: seq<string>): (e: nat)
    ensures e <= |lines| && (e < |lines| ==> TrimCRs(lines[e]) == END_LINE)
    ensures forall i :: 0 <= i < e ==> TrimCRs(lines[i]) != END_LINE
  {
    if lines == [] then 0
    else if TrimCRs(lines[0]) == END_LINE then 0
    else 1 + EndAt(lines[1..])
  }

  /** The tokenizer's verdict on an input. */
  ghost predicate Verdict(lines: seq<string>, r: TokenResult) {
    match r
    case Tokens(sections) =>
      EndAt(lines) < |lines| && exists st :: Reaches(Significant(lines[..EndAt(lines)]), st) && sections == Closed(st)
    case MissingEnd => EndAt(lines) == |lines| && exists st :: Reaches(Significant(lines), st)
    case Failed(lineNo, error) =>
      && 1 <= lineNo <= EndAt(lines)
      && FailsOn(lines[..lineNo - 1], TrimCRs(lines[lineNo - 1]), error)
  }

  /** `line`, met after the lines of `before`, is not blank and is an error there. */
  ghost predicate FailsOn(before: seq<string>, line: string, error: TokenError) {
    line != "" && exists st :: Reaches(Significant(before), st) && StepsTo(st, line, Fail(error))
  }

  lemma {:induction false} SignificantMore(lines: seq<string>, i: nat)
    requires i < |lines|
    ensures Significant(lines[..i + 1]) == Significant(lines[..i]) + (if TrimCRs(lines[i]) == "" then [] else [TrimCRs(lines[i])])
  {
    assert lines[..i + 1][..i] == lines[..i];
  }

  lemma {:induction false} EndAtIs(lines: seq<string>, e: nat)
    requires e <= |lines| && (e < |lines| ==> TrimCRs(lines[e]) == END_LINE)
    requires forall i :: 0 <= i < e ==> TrimCRs(lines[i]) != END_LINE
    ensures EndAt(lines) == e
  {
  }

  lemma {:induction false} NothingReachesInitial(lines: seq<string>)
    ensures Reaches(Significant(lines[..0]), INITIAL)
  {
    assert lines[..0] == [];
  }

  /** Tokenize: line by line up to the end marker. */
  method Tokenize(input: string) returns (r: TokenResult)
    ensures Verdict(Split(input, '\n'), r)
  {
    hide StepsTo;
    hide Split;
    hide Significant;
    hide Reaches;
    hide EndAt;
    hide Closed;
    hide TrimCRs;
    var lines := Split(input, '\n');
    var st := INITIAL;
    assert Reaches(Significant(lines[..0]), st) by {
      NothingReachesInitial(lines);
    }
    for i := 0 to |lines|
      invariant forall j :: 0 <= j < i ==> TrimCRs(lines[j]) != END_LINE
      invariant Reaches(Significant(lines[..i]), st)
    {
      var line := TrimCRs(lines[i]);
      SignificantMore(lines, i);
      if line == END_LINE {
        EndAtIs(lines, i);
        return Tokens(Closed(st));
      }
      if line != "" {
        var step := StepLine(st, line);
        if step.Fail? {
          return Failed(i + 1, step.error);
        }
        ReachOneMore(Significant(lines[..i]), st, line, step.st);
        st := step.st;
      } else {
        assert Significant(lines[..i]) + [] == Significant(lines[..i]);
      }
    }
    assert lines[..|lines|] == lines;
    EndAtIs(lines, |lines|);
    r := MissingEnd;
  }

  // ----------------------------------------------------------------- the printer

  /** A section as the collector prints it: its pairs in print order. */
  datatype Block = Block(name: string, pairs: seq<(string, string)>)

  function PairLine(p: (string, string)): string {
    p.0 + ['='] + p.1
  }

  function DocLines(doc: seq<Block>): seq<string> {
    if doc == [] then []
    else
      var b := doc[|doc| - 1];
      DocLines(doc[..|doc| - 1]) + [HASHES + b.name] + PairLines(b.pairs)
  }

  function PairLines(pairs: seq<(string, string)>): seq<string> {
    seq(|pairs|, i requires 0 <= i < |pairs| => PairLine(pairs[i]))
  }

  /** A later pair wins over an earlier one with the same key. */
  function MapOf(pairs: seq<(string, string)>): map<string, string> {
    if pairs == [] then map[]
    else
      var (k, v) := pairs[|pairs| - 1];
      MapOf(pairs[..|pairs| - 1])[k := v]
  }

  function SectionsOf(doc: seq<Block>): seq<Section> {
    seq(|doc|, i requires 0 <= i < |doc| => Section(doc[i].name, MapOf(doc[i].pairs)))
  }

  function NamesOf(doc: seq<Block>): set<string> {
    set b | b in doc :: b.name
  }

  predicate GoodPair(p: (string, string)) {
    GoodKey(p.0) && !HasPrefix(PairLine(p), HASHES)
  }

  ghost predicate GoodDoc(doc: seq<Block>) {
    && (forall i, j :: 0 <= i < j < |doc| ==> doc[i].name != doc[j].name)
    && (forall b :: b in doc ==> b.name != "" && forall p :: p in b.pairs ==> GoodPair(p))
  }

  /** The state in which a printed document leaves the tokenizer. */
  function StateOf(doc: seq<Block>): State {
    if doc == [] then INITIAL
    else
      var all := SectionsOf(doc);
      State(all[..|doc| - 1], Some(all[|doc| - 1]), NamesOf(doc))
  }

  lemma {:induction false} ClosedIsAll(doc: seq<Block>)
    ensures Closed(StateOf(doc)) == SectionsOf(doc)
  {
    var all := SectionsOf(doc);
    if doc != [] {
      assert all == all[..|doc| - 1] + [all[|doc| - 1]];
    }
  }

  lemma {:induction false} HeaderStep(doc: seq<Block>, name: string)
    ensures StepsTo(StateOf(doc), HASHES + name,
                    if name == "" then Fail(EmptyName)
                    else if name in NamesOf(doc) then Fail(DuplicateSection(name))
                    else Next(StateOf(doc + [Block(name, [])])))
  {
    var line, doc' := HASHES + name, doc + [Block(name, [])];
    assert line[..3] == HASHES && line[3..] == name;
    ClosedIsAll(doc);
    assert SectionsOf(doc') == SectionsOf(doc) + [Section(name, map[])];
    assert SectionsOf(doc')[..|doc|] == SectionsOf(doc);
    assert NamesOf(doc') == NamesOf(doc) + {name};
    assert StateOf(doc).seen == NamesOf(doc);
  }

  function WithPair(doc: seq<Block>, p: (string, string)): seq<Block>
    requires doc != []
  {
    var n := |doc| - 1;
    doc[..n] + [Block(doc[n].name, doc[n].pairs + [p])]
  }

  lemma {:induction false} PairStep(doc: seq<Block>, p: (string, string))
    requires doc != [] && GoodPair(p)
    ensures StepsTo(StateOf(doc), PairLine(p), Next(StateOf(WithPair(doc, p))))
  {
    var n, doc' := |doc| - 1, WithPair(doc, p);
    GoodKeySplits(p.0, p.1);
    assert IsSplit(PairLine(p), p.0, p.1);
    assert (doc[n].pairs + [p])[..|doc[n].pairs|] == doc[n].pairs;
    assert SectionsOf(doc')[..n] == SectionsOf(doc)[..n];
    WithPairNames(doc, p);
  }

  lemma {:induction false} WithPairNames(doc: seq<Block>, p: (string, string))
    requires doc != []
    ensures NamesOf(WithPair(doc, p)) == NamesOf(doc)
  {
    var n, doc' := |doc| - 1, WithPair(doc, p);
    NamesFrom(doc, doc');
    NamesFrom(doc', doc);
  }

  lemma {:induction false} NamesFrom(doc: seq<Block>, doc': seq<Block>)
    requires |doc| == |doc'| && forall i :: 0 <= i < |doc| ==> doc[i].name == doc'[i].name
    ensures NamesOf(doc) <= NamesOf(doc')
  {
    forall name | name in NamesOf(doc) ensures name in NamesOf(doc') {
      var i :| 0 <= i < |doc| && doc[i].name == name;
      assert doc'[i] in doc';
    }
  }

  lemma {:induction false} ReachOneMore(sig: seq<string>, before: State, line: string, st: State)
    requires Reaches(sig, before) && StepsTo(before, line, Next(st))
    ensures Reaches(sig + [line], st)
  {
    assert Init(sig + [line]) == sig && Last(sig + [line]) == line;
  }

  lemma {:induction false} DocLinesPair(doc: seq<Block>, p: (string, string))
    requires doc != []
    ensures DocLines(WithPair(doc, p)) == DocLines(doc) + [PairLine(p)]
  {
    var n, doc' := |doc| - 1, WithPair(doc, p);
    assert doc'[..n] == doc[..n];
    assert PairLines(doc[n].pairs + [p]) == PairLines(doc[n].pairs) + [PairLine(p)];
  }

  lemma {:induction false} DocLinesHeader(doc: seq<Block>, name: string)
    ensures DocLines(doc + [Block(name, [])]) == DocLines(doc) + [HASHES + name]
  {
    assert (doc + [Block(name, [])])[..|doc|] == doc;
    assert PairLines([]) == [];
  }

  lemma {:induction false} HeaderReaches(init: seq<Block>, name: string)
    requires Reaches(DocLines(init), StateOf(init)) && name != "" && name !in NamesOf(init)
    ensures var doc := init + [Block(name, [])]; Reaches(DocLines(doc), StateOf(doc))
  {
    hide Reaches;
    hide StepsTo;
    hide StateOf;
    hide DocLines;
    HeaderStep(init, name);
    DocLinesHeader(init, name);
    ReachOneMore(DocLines(init), StateOf(init), HASHES + name, StateOf(init + [Block(name, [])]));
  }

  lemma {:induction false} PairReaches(init: seq<Block>, p: (string, string))
    requires init != [] && Reaches(DocLines(init), StateOf(init)) && GoodPair(p)
    ensures var doc := WithPair(init, p); Reaches(DocLines(doc), StateOf(doc))
  {
    hide Reaches;
    hide StepsTo;
    hide StateOf;
    hide DocLines;
    PairStep(init, p);
    DocLinesPair(init, p);
    ReachOneMore(DocLines(init), StateOf(init), PairLine(p), StateOf(WithPair(init, p)));
  }

  /** Completeness: the lines of a well-formed document lead to its state. */
  lemma {:induction false} DocReaches(doc: seq<Block>)
    requires GoodDoc(doc)
    ensures Reaches(DocLines(doc), StateOf(doc))
    decreases |doc|, if doc == [] then 0 else |doc[|doc| - 1].pairs|
  {
    hide GoodPair;
    if doc != [] {
      hide Reaches;
      hide StateOf;
      hide DocLines;
      var n := |doc| - 1;
      var b := doc[n];
      assert b in doc;
      if b.pairs == [] {
        var init := doc[..n];
        assert forall c :: c in init ==> c in doc;
        DocReaches(init);
        assert doc == init + [Block(b.name, [])];
        assert b.name !in NamesOf(init);
        HeaderReaches(init, b.name);
      } else {
        var m := |b.pairs| - 1;
        var init := doc[..n] + [Block(b.name, b.pairs[..m])];
        assert b.pairs == b.pairs[..m] + [b.pairs[m]];
        assert WithPair(init, b.pairs[m]) == doc;
        assert b.pairs[m] in b.pairs;
        GoodInit(doc, init);
        DocReaches(init);
        PairReaches(init, b.pairs[m]);
      }
    }
  }

  lemma {:induction false} GoodInit(doc: seq<Block>, init: seq<Block>)
    requires GoodDoc(doc) && doc != []
    requires var n := |doc| - 1; var b := doc[n];
             b.pairs != [] && init == doc[..n] + [Block(b.name, b.pairs[..|b.pairs| - 1])]
    ensures GoodDoc(init)
  {
    hide GoodPair;
    var n := |doc| - 1;
    assert doc[n] in doc;
    assert forall i :: 0 <= i < |doc| ==> init[i].name == doc[i].name;
    forall c | c in init ensures c.name != "" && forall p :: p in c.pairs ==> GoodPair(p) {
      if c in doc[..n] {
        assert c in doc;
      } else {
        assert forall p :: p in c.pairs ==> p in doc[n].pairs;
      }
    }
  }

  /** Soundness: whatever lines the tokenizer accepts are those of a well-formed document. */
  lemma {:induction false} ReachedFromDoc(sig: seq<string>, st: State) returns (doc: seq<Block>)
    requires Reaches(sig, st)
    ensures GoodDoc(doc) && DocLines(doc) == sig && st == StateOf(doc)
  {
    if sig == [] {
      doc := [];
    } else {
      var line := Last(sig);
      var before: State :| Reaches(Init(sig), before) && StepsTo(before, line, Next(st));
      var init := ReachedFromDoc(Init(sig), before);
      assert sig == Init(sig) + [line];
      if HasPrefix(line, HASHES) {
        var name := line[3..];
        assert line == HASHES + name;
        HeaderStep(init, name);
        StepIsUnique(before, line, Next(st), if name == "" then Fail(EmptyName)
                     else if name in NamesOf(init) then Fail(DuplicateSection(name))
                     else Next(StateOf(init + [Block(name, [])])));
        doc := init + [Block(name, [])];
        DocLinesHeader(init, name);
        GoodHeader(init, name);
      } else {
        var key, value :| IsSplit(line, key, value);
        PairStep(init, (key, value));
        StepIsUnique(before, line, Next(st), Next(StateOf(WithPair(init, (key, value)))));
        doc := WithPair(init, (key, value));
        DocLinesPair(init, (key, value));
        GoodMore(init, (key, value));
      }
    }
  }

  lemma {:induction false} GoodHeader(doc: seq<Block>, name: string)
    requires GoodDoc(doc) && name != "" && name !in NamesOf(doc)
    ensures GoodDoc(doc + [Block(name, [])])
  {
    hide GoodPair;
    assert forall b :: b in doc ==> b.name in NamesOf(doc);
    assert forall i :: 0 <= i < |doc| ==> doc[i] in doc;
  }

  lemma {:induction false} GoodMore(doc: seq<Block>, p: (string, string))
    requires GoodDoc(doc) && doc != [] && GoodPair(p)
    ensures GoodDoc(WithPair(doc, p))
  {
    hide GoodPair;
    var n, doc' := |doc| - 1, WithPair(doc, p);
    assert doc[n] in doc;
    assert forall i :: 0 <= i < |doc| ==> doc'[i].name == doc[i].name;
    forall c | c in doc' ensures c.name != "" && forall q :: q in c.pairs ==> GoodPair(q) {
      if c in doc[..n] {
        assert c in doc;
      }
    }
  }

  // --------------------------------------------------------------- main results

  /** An input is accepted with given sections if and only if, blank lines and trailing CRs aside,
      it is a well-formed document of those sections up to its first end marker. */
  lemma {:induction false} AcceptsExactlyDocuments(input: string, sections: seq<Section>)
    ensures var lines := Split(input, '\n');
            Verdict(lines, Tokens(sections)) <==>
            EndAt(lines) < |lines|
            && exists doc :: GoodDoc(doc) && DocLines(doc) == Significant(lines[..EndAt(lines)]) && sections == SectionsOf(doc)
  {
    hide Split;
    hide GoodDoc;
    var lines := Split(input, '\n');
    var sig := Significant(lines[..EndAt(lines)]);
    if Verdict(lines, Tokens(sections)) {
      var st :| Reaches(sig, st) && sections == Closed(st);
      var doc := ReachedFromDoc(sig, st);
      ClosedIsAll(doc);
    }
    if EndAt(lines) < |lines| && exists doc :: GoodDoc(doc) && DocLines(doc) == sig && sections == SectionsOf(doc) {
      var doc :| GoodDoc(doc) && DocLines(doc) == sig && sections == SectionsOf(doc);
      DocReaches(doc);
      ClosedIsAll(doc);
    }
  }

  lemma {:induction false} AcceptedSectionsAreUnique(lines: seq<string>, s1: seq<Section>, s2: seq<Section>)
    requires Verdict(lines, Tokens(s1)) && Verdict(lines, Tokens(s2))
    ensures s1 == s2
  {
    var sig := Significant(lines[..EndAt(lines)]);
    var st1 :| Reaches(sig, st1) && s1 == Closed(st1);
    var st2 :| Reaches(sig, st2) && s2 == Closed(st2);
    ReachesIsUnique(sig, st1, st2);
  }

  /** Fit to print: no LF, and nothing a line's end would lose. */
  ghost predicate Printable(doc: seq<Block>) {
    forall b :: b in doc ==>
      && b.name != "END" && '\n' !in b.name && b.name != "" && b.name[|b.name| - 1] != '\r'
      && forall p :: p in b.pairs ==> '\n' !in p.0 && '\n' !in p.1 && (p.1 == "" || p.1[|p.1| - 1] != '\r')
  }

  function Lined(lines: seq<string>): string {
    if lines == [] then "" else lines[0] + ['\n'] + Lined(lines[1..])
  }

  lemma {:induction false} SplitLined(lines: seq<string>, rest: string)
    requires forall l :: l in lines ==> '\n' !in l
    ensures Split(Lined(lines) + rest, '\n') == lines + Split(rest, '\n')
  {
    hide Split;
    if lines == [] {
      assert Lined(lines) + rest == rest;
    } else {
      assert lines[0] in lines && forall l :: l in lines[1..] ==> l in lines;
      SplitLined(lines[1..], rest);
      SplitCons(lines[0], '\n', Lined(lines[1..]) + rest);
      assert Lined(lines) + rest == lines[0] + ['\n'] + (Lined(lines[1..]) + rest);
      assert lines == [lines[0]] + lines[1..];
    }
  }

  /** A line that survives the tokenizer's trimming, and is not the end marker. */
  predicate Plain(line: string) {
    '\n' !in line && line != "" && line[|line| - 1] != '\r' && line != END_LINE
  }

  lemma {:induction false} DocLinesArePlain(doc: seq<Block>, l: string)
    requires GoodDoc(doc) && Printable(doc) && l in DocLines(doc)
    ensures Plain(l)
  {
    var n := |doc| - 1;
    var b, init := doc[n], doc[..n];
    assert b in doc;
    if l in DocLines(init) {
      assert forall c :: c in init ==> c in doc;
      assert GoodDoc(init) && Printable(init);
      DocLinesArePlain(init, l);
    } else if l == HASHES + b.name {
      assert l[3..] == b.name && END_LINE[3..] == "END";
      assert l[|l| - 1] == b.name[|b.name| - 1];
    } else {
      var i :| 0 <= i < |b.pairs| && l == PairLine(b.pairs[i]);
      assert b.pairs[i] in b.pairs;
      PairLineIsPlain(b.pairs[i]);
    }
  }

  lemma {:induction false} PairLineIsPlain(p: (string, string))
    requires GoodPair(p) && '\n' !in p.0 && '\n' !in p.1 && (p.1 == "" || p.1[|p.1| - 1] != '\r')
    ensures Plain(PairLine(p))
  {
    hide GoodKey;
    var l := PairLine(p);
    assert l[|l| - 1] == if p.1 == "" then '=' else p.1[|p.1| - 1];
    assert HasPrefix(END_LINE, HASHES);
  }

  lemma {:induction false} PlainLineStays(line: string)
    requires Plain(line)
    ensures TrimCRs(line) == line
  {
  }

  lemma {:induction false} PlainLinesStay(lines: seq<string>)
    requires forall l :: l in lines ==> Plain(l)
    ensures Significant(lines) == lines
    ensures forall i :: 0 <= i < |lines| ==> TrimCRs(lines[i]) == lines[i]
  {
    hide TrimCRs;
    forall i | 0 <= i < |lines| ensures TrimCRs(lines[i]) == lines[i] != "" {
      assert lines[i] in lines;
      PlainLineStays(lines[i]);
    }
    hide Plain;
    AllStay(lines);
  }

  lemma {:induction false} AllStay(lines: seq<string>)
    requires forall i :: 0 <= i < |lines| ==> TrimCRs(lines[i]) == lines[i] != ""
    ensures Significant(lines) == lines
  {
    hide TrimCRs;
    if lines != [] {
      var n := |lines| - 1;
      AllStay(lines[..n]);
      assert lines == lines[..n] + [lines[n]];
    }
  }

  /** Tokenizing undoes printing: any well-formed document, then the end marker, then anything on
      later lines, yields exactly the document's sections. */
  lemma {:induction false} TokenizeUndoesPrinting(doc: seq<Block>, suffix: string, r: TokenResult)
    requires GoodDoc(doc) && Printable(doc) && (suffix == "" || suffix[0] == '\n')
    requires Verdict(Split(Lined(DocLines(doc)) + (END_LINE + suffix), '\n'), r)
    ensures r == Tokens(SectionsOf(doc))
  {
    var docLines := DocLines(doc);
    forall l | l in docLines ensures Plain(l) {
      DocLinesArePlain(doc, l);
    }
    DocReaches(doc);
    ClosedIsAll(doc);
    hide GoodDoc;
    hide Printable;
    var lines := Split(Lined(docLines) + (END_LINE + suffix), '\n');
    SplitLined(docLines, END_LINE + suffix);
    PlainLinesStay(docLines);
    EndLineFirst(suffix);
    EndFollows(docLines, Split(END_LINE + suffix, '\n'));
    hide Split;
    hide EndAt;
    assert lines[..EndAt(lines)] == docLines;
    assert Verdict(lines, Tokens(SectionsOf(doc)));
    VerdictIsUnique(lines, Tokens(SectionsOf(doc)), r);
  }

  lemma {:induction false} EndLineFirst(suffix: string)
    requires suffix == "" || suffix[0] == '\n'
    ensures Split(END_LINE + suffix, '\n')[0] == END_LINE && TrimCRs(END_LINE) == END_LINE
  {
    assert '\n' !in END_LINE;
    if suffix == "" {
      assert END_LINE + suffix == END_LINE;
    } else {
      assert END_LINE + suffix == END_LINE + ['\n'] + suffix[1..];
      SplitCons(END_LINE, '\n', suffix[1..]);
    }
  }

  lemma {:induction false} EndFollows(lines: seq<string>, rest: seq<string>)
    requires forall l :: l in lines ==> Plain(l)
    requires rest != [] && rest[0] == END_LINE && TrimCRs(END_LINE) == END_LINE
    ensures EndAt(lines + rest) == |lines|
  {
    PlainLinesStay(lines);
    var all := lines + rest;
    var e := EndAt(all);
    assert forall i :: 0 <= i < |lines| ==> all[i] == lines[i] && lines[i] in lines;
    assert all[|lines|] == END_LINE;
  }

  /** No input has two verdicts: the sections, or the error and its line, are determined. */
  lemma {:induction false} VerdictIsUnique(lines: seq<string>, r1: TokenResult, r2: TokenResult)
    requires Verdict(lines, r1) && Verdict(lines, r2)
    ensures r1 == r2
  {
    hide StepsTo;
    hide Significant;
    if r1.Failed? {
      if r2.Failed? && r2.lineNo < r1.lineNo {
        FirstFailureStands(lines, r2, r1);
      } else {
        FirstFailureStands(lines, r1, r2);
      }
    } else if r2.Failed? {
      FirstFailureStands(lines, r2, r1);
    } else if r1.Tokens? && r2.Tokens? {
      AcceptedSectionsAreUnique(lines, r1.sections, r2.sections);
    }
  }

  /** How many lines a verdict says were read without an error. */
  function ReadWell(lines: seq<string>, r: TokenResult): nat {
    if r.Failed? && r.lineNo > 0 then r.lineNo - 1 else EndAt(lines)
  }

  lemma {:induction false} FirstFailureStands(lines: seq<string>, failed: TokenResult, r: TokenResult)
    requires failed.Failed? && Verdict(lines, failed) && Verdict(lines, r)
    requires failed.lineNo - 1 <= ReadWell(lines, r)
    ensures r == failed
  {
    hide StepsTo;
    hide Significant;
    var i, e := failed.lineNo - 1, ReadWell(lines, r);
    var line := TrimCRs(lines[i]);
    var sig := Significant(lines[..i]);
    assert lines[..|lines|] == lines;
    var st1 :| Reaches(sig, st1) && StepsTo(st1, line, Fail(failed.error));
    if i < e {
      var st :| Reaches(Significant(lines[..e]), st);
      var mid, next := ReachesThrough(lines, i, e, st);
      ReachesIsUnique(sig, st1, mid);
      StepIsUnique(mid, line, Fail(failed.error), Next(next));
    } else if r.Failed? {
      var st2 :| Reaches(sig, st2) && StepsTo(st2, line, Fail(r.error));
      ReachesIsUnique(sig, st1, st2);
      StepIsUnique(st1, line, Fail(failed.error), Fail(r.error));
    }
  }

  /** A run that reaches past a non-blank line stepped over it. */
  lemma {:induction false} ReachesThrough(lines: seq<string>, i: nat, e: nat, st: State) returns (mid: State, next: State)
    requires i < e <= |lines| && TrimCRs(lines[i]) != "" && Reaches(Significant(lines[..e]), st)
    ensures Reaches(Significant(lines[..i]), mid) && StepsTo(mid, TrimCRs(lines[i]), Next(next))
  {
    hide StepsTo;
    hide Significant;
    SignificantMore(lines, e - 1);
    var sig, line := Significant(lines[..e - 1]), TrimCRs(lines[e - 1]);
    if line != "" {
      assert Init(sig + [line]) == sig && Last(sig + [line]) == line;
      var before: State :| Reaches(sig, before) && StepsTo(before, line, Next(st));
      if i < e - 1 {
        mid, next := ReachesThrough(lines, i, e - 1, before);
      } else {
        mid, next := before, st;
      }
    } else {
      assert sig + [] == sig;
      mid, next := ReachesThrough(lines, i, e - 1, st);
    }
  }

  // -------------------------------------------------------------- finding a section

  /** Output.Section: the first section of that name. */
  method FindSection(sections: seq<Section>, name: string) returns (r: Option<Section>)
    ensures r.None? <==> forall s :: s in sections ==> s.name != name
    ensures r.Some? ==> exists i :: 0 <= i < |sections| && sections[i] == r.value && r.value.name == name
                                    && forall j :: 0 <= j < i ==> sections[j].name != name
  {
    for i := 0 to |sections|
      invariant forall j :: 0 <= j < i ==> sections[j].name != name
    {
      if sections[i].name == name {
        return Some(sections[i]);
      }
    }
    return None;
  }

  /** Of the sections the tokenizer accepts no two share a name, so the first match is the only one. */
  lemma {:induction false} AcceptedNamesAreDistinct(lines: seq<string>, sections: seq<Section>)
    requires Verdict(lines, Tokens(sections))
    ensures forall i, j :: 0 <= i < j < |sections| ==> sections[i].name != sections[j].name
    ensures forall s :: s in sections ==> s.name != ""
  {
    hide Reaches;
    hide Significant;
    hide Closed;
    hide GoodPair;
    hide DocLines;
    hide StateOf;
    hide MapOf;
    var sig := Significant(lines[..EndAt(lines)]);
    var st :| Reaches(sig, st) && sections == Closed(st);
    var doc := ReachedFromDoc(sig, st);
    ClosedIsAll(doc);
    assert forall b :: b in doc ==> b.name != "";
  }

  // ------------------------------------------------------- which inputs are refused

  predicate IsHeader(line: string) {
    HasPrefix(line, "###") && line != "###"
  }

  /** What is wrong with a line, in terms of the lines before it. */
  ghost function LineFault(before: seq<string>, line: string): Option<TokenError> {
    if line == "" then None
    else if line == "###" then Some(EmptyName)
    else if HasPrefix(line, "###") then
      if exists j :: 0 <= j < |before| && TrimCRs(before[j]) == line then Some(DuplicateSection(line[3..])) else None
    else if !exists j :: 0 <= j < |before| && IsHeader(TrimCRs(before[j])) then Some(OutsideSection)
    else if !exists key, value :: IsSplit(line, key, value) then Some(Malformed)
    else None
  }

  /** Line `j` is faultless, given those before it. */
  ghost predicate Faultless(lines: seq<string>, j: nat)
    requires j < |lines|
  {
    LineFault(lines[..j], TrimCRs(lines[j])) == None
  }

  /** The names seen are those of the header lines, and a section is open once there is one. */
  ghost predicate Headers(before: seq<string>, st: State) {
    && (forall name: string :: name in st.seen <==> name != "" && exists j :: 0 <= j < |before| && TrimCRs(before[j]) == "###" + name)
    && (st.current.Some? <==> exists j :: 0 <= j < |before| && IsHeader(TrimCRs(before[j])))
  }

  lemma {:induction false} HeaderName(line: string)
    requires HasPrefix(line, "###")
    ensures line == "###" + line[3..] && (line == "###" <==> line[3..] == "")
    ensures forall name: string :: "###" + name == line <==> name == line[3..]
  {
    forall name: string ensures "###" + name == line <==> name == line[3..] {
      assert ("###" + name)[3..] == name;
    }
  }

  /** The same with one line more. */
  lemma {:induction false} HeadersMore(before: seq<string>, raw: string, st: State, st': State)
    requires Headers(before, st)
    requires var line := TrimCRs(raw); if line == "" then st' == st else StepsTo(st, line, Next(st'))
    ensures Headers(before + [raw], st')
  {
    hide TrimCRs;
    hide Closed;
    hide DepthAfter;
    var more, line := before + [raw], TrimCRs(raw);
    assert more[|before|] == raw && forall j :: 0 <= j < |before| ==> more[j] == before[j];
    if HasPrefix(line, "###") {
      HeaderName(line);
    }
    forall name: string
      ensures (exists j :: 0 <= j < |more| && TrimCRs(more[j]) == "###" + name) <==>
              (exists j :: 0 <= j < |before| && TrimCRs(before[j]) == "###" + name) || line == "###" + name
    {
      if j :| 0 <= j < |before| && TrimCRs(before[j]) == "###" + name {
        assert TrimCRs(more[j]) == "###" + name;
      }
    }
    assert (exists j :: 0 <= j < |more| && IsHeader(TrimCRs(more[j]))) <==>
      (exists j :: 0 <= j < |before| && IsHeader(TrimCRs(before[j]))) || IsHeader(line) by {
      if j :| 0 <= j < |before| && IsHeader(TrimCRs(before[j])) {
        assert IsHeader(TrimCRs(more[j]));
      }
    }
    assert line == "" ==> !HasPrefix(line, "###");
    assert forall name: string :: line == "###" + name ==> HasPrefix(line, "###") && line[3..] == name;
  }

  lemma {:induction false} NoHeaders()
    ensures Headers([], INITIAL)
  {
  }

  lemma {:induction false} HasSplit(line: string)
    ensures DepthAfter(line, 0).None? <==> exists key, value :: IsSplit(line, key, value)
  {
    if DepthAfter(line, 0).None? {
      var i := FirstCut(line);
      assert IsSplit(line, line[..i], line[i + 1..]);
    }
    if key, value :| IsSplit(line, key, value) {
      GoodKeySplits(key, value);
    }
  }

  lemma {:induction false} FirstCut(line: string) returns (i: nat)
    requires DepthAfter(line, 0).None?
    ensures i < |line| && line == line[..i] + ['='] + line[i + 1..] && GoodKey(line[..i])
  {
    var n := |line| - 1;
    if DepthAfter(line[..n], 0).None? {
      i := FirstCut(line[..n]);
      assert line[..n][..i] == line[..i];
    } else {
      i := n;
    }
  }

  /** What a line does, by its fault. */
  lemma {:induction false} FaultStops(before: seq<string>, line: string, st: State)
    requires Headers(before, st) && line != ""
    ensures forall e: TokenError :: StepsTo(st, line, Fail(e)) <==> LineFault(before, line) == Some(e)
    ensures LineFault(before, line) == None <==> exists st': State :: StepsTo(st, line, Next(st'))
  {
    hide TrimCRs;
    hide Closed;
    HasSplit(line);
    hide DepthAfter;
    if HasPrefix(line, "###") {
      HeaderName(line);
      if line != "###" && line[3..] !in st.seen {
        assert StepsTo(st, line, Next(State(Closed(st), Some(Section(line[3..], map[])), st.seen + {line[3..]})));
      }
    } else if st.current.Some? {
      if key, value :| IsSplit(line, key, value) {
        assert StepsTo(st, line, Next(st.(current := Some(Section(st.current.value.name, st.current.value.kvs[key := value])))));
      }
    }
  }

  lemma {:induction false} ReachedHasHeaders(before: seq<string>, st: State)
    requires Reaches(Significant(before), st)
    ensures Headers(before, st)
  {
    hide Headers;
    hide StepsTo;
    if before == [] {
      NoHeaders();
    } else {
      var init, raw := before[..|before| - 1], before[|before| - 1];
      var line := TrimCRs(raw);
      assert before == init + [raw];
      SignificantMore(before, |before| - 1);
      assert before[..|before| - 1 + 1] == before;
      if line == "" {
        assert Significant(init) + [] == Significant(init);
        ReachedHasHeaders(init, st);
        HeadersMore(init, raw, st, st);
      } else {
        var sig := Significant(before);
        assert Init(sig) == Significant(init) && Last(sig) == line;
        var mid: State :| Reaches(Init(sig), mid) && StepsTo(mid, Last(sig), Next(st));
        ReachedHasHeaders(init, mid);
        HeadersMore(init, raw, mid, st);
      }
    }
  }

  ghost predicate Reachable(lines: seq<string>, m: nat)
    requires m <= |lines|
  {
    exists st: State :: Reaches(Significant(lines[..m]), st)
  }

  /** The lines before the `m`th can be read if and only if none of them has a fault. */
  lemma {:induction false} ReachableIffFaultless(lines: seq<string>, m: nat)
    requires m <= |lines|
    ensures Reachable(lines, m) <==> forall j: nat :: j < m ==> Faultless(lines, j)
  {
    if m == 0 {
      NothingReachesInitial(lines);
    } else {
      ReachableIffFaultless(lines, m - 1);
      ReachableStep(lines, m - 1);
      hide Reachable;
      hide Faultless;
    }
  }

  lemma {:induction false} ReachableStep(lines: seq<string>, i: nat)
    requires i < |lines|
    ensures Reachable(lines, i + 1) <==> Reachable(lines, i) && Faultless(lines, i)
  {
    hide StepsTo;
    hide LineFault;
    hide Significant;
    hide TrimCRs;
    var line, sig := TrimCRs(lines[i]), Significant(lines[..i + 1]);
    SignificantMore(lines, i);
    BlankIsFaultless(lines[..i]);
    if line == "" {
      assert Significant(lines[..i]) + [] == Significant(lines[..i]);
    } else {
      assert Init(sig) == Significant(lines[..i]) && Last(sig) == line;
      if Reachable(lines, i) {
        var st: State :| Reaches(Significant(lines[..i]), st);
        ReachedHasHeaders(lines[..i], st);
        FaultStops(lines[..i], line, st);
        if Faultless(lines, i) {
          var st': State :| StepsTo(st, line, Next(st'));
          assert Reaches(sig, st');
        }
        forall st': State | Reaches(sig, st') ensures Faultless(lines, i) {
          var mid: State :| Reaches(Init(sig), mid) && StepsTo(mid, Last(sig), Next(st'));
          ReachesIsUnique(Init(sig), mid, st);
        }
      } else {
        forall st': State ensures !Reaches(sig, st') {
        }
      }
    }
  }

  lemma {:induction false} BlankIsFaultless(before: seq<string>)
    ensures LineFault(before, "") == None
  {
  }

  /** An input is refused at a line, with an error, if and only if that line comes before the end marker,
      the error is its fault, and it is the first with one. */
  lemma {:induction false} FailsIff(lines: seq<string>, lineNo: nat, error: TokenError)
    ensures Verdict(lines, Failed(lineNo, error)) <==>
            && 1 <= lineNo <= EndAt(lines)
            && LineFault(lines[..lineNo - 1], TrimCRs(lines[lineNo - 1])) == Some(error)
            && forall j: nat :: j < lineNo - 1 ==> Faultless(lines, j)
  {
    hide StepsTo;
    hide LineFault;
    hide Significant;
    hide TrimCRs;
    hide EndAt;
    hide Reaches;
    if 1 <= lineNo <= EndAt(lines) {
      var i := lineNo - 1;
      var line := TrimCRs(lines[i]);
      BlankIsFaultless(lines[..i]);
      ReachableIffFaultless(lines, i);
      if line != "" {
        if st: State :| Reaches(Significant(lines[..i]), st) {
          ReachedHasHeaders(lines[..i], st);
          FaultStops(lines[..i], line, st);
          forall other: State | Reaches(Significant(lines[..i]), other) ensures other == st {
            ReachesIsUnique(Significant(lines[..i]), other, st);
          }
        }
      }
    }
  }

  /** And for want of an end marker if and only if there is none, and no line has a fault. */
  lemma {:induction false} MissingEndIff(lines: seq<string>)
    ensures Verdict(lines, MissingEnd) <==>
            (forall i :: 0 <= i < |lines| ==> TrimCRs(lines[i]) != "###END") && forall j: nat :: j < |lines| ==> Faultless(lines, j)
  {
    hide Significant;
    hide TrimCRs;
    hide Reaches;
    hide Faultless;
    ReachableIffFaultless(lines, |lines|);
    assert lines[..|lines|] == lines;
    if EndAt(lines) < |lines| {
      assert TrimCRs(lines[EndAt(lines)]) == "###END";
    }
    hide EndAt;
  }
}
