/** Metrics rendered in the influx line protocol (internal/metrics/lineproto.go), and the reader that
    undoes it. */
module LineProtocol {
  import opened Text

  // ------------------------------------------------------------------ escaping

  predicate Special(c: char) {
    c == '\\' || c == ',' || c == '=' || c == ' '
  }

  /** escapeTag. */
  function Escape(s: string): string {
    if s == "" then ""
    else (if Special(s[0]) then ['\\', s[0]] else [s[0]]) + Escape(s[1..])
  }

  /** The protocol's own rule for a name, a tag key or a tag value: it ends at the first comma, equals
      sign or space that no backslash escapes. */
  function ReadToken(s: string): (r: (string, string))
    ensures |r.1| <= |s|
  {
    if s == "" then ("", "")
    else if s[0] == '\\' && |s| >= 2 && Special(s[1]) then
      var (token, rest) := ReadToken(s[2..]);
      ([s[1]] + token, rest)
    else if s[0] == ',' || s[0] == '=' || s[0] == ' ' then ("", s)
    else
      var (token, rest) := ReadToken(s[1..]);
      ([s[0]] + token, rest)
  }

  predicate Stops(s: string) {
    s == "" || s[0] == ',' || s[0] == '=' || s[0] == ' '
  }

  /** Escaping loses nothing and leaves no unescaped separator: the reader takes back the whole string
      and stops exactly where it ends. */
  lemma {:induction false} EscapeReadsBack(s: string, rest: string)
    requires Stops(rest)
    ensures ReadToken(Escape(s) + rest) == (s, rest)
  {
    var text := Escape(s) + rest;
    if s == "" {
      assert text == rest;
    } else {
      EscapeReadsBack(s[1..], rest);
      assert s == [s[0]] + s[1..];
      if Special(s[0]) {
        assert text[0] == '\\' && text[1] == s[0] && text[2..] == Escape(s[1..]) + rest;
      } else {
        assert text[0] == s[0] && text[1..] == Escape(s[1..]) + rest;
      }
    }
  }

  /** A name that needs no escaping. */
  predicate PlainToken(s: string) {
    forall c :: c in s ==> !Special(c) && c != '\n'
  }

  lemma {:induction false} PlainReadsBack(s: string, rest: string)
    requires PlainToken(s) && Stops(rest)
    ensures ReadToken(s + rest) == (s, rest)
  {
    if s == "" {
      assert s + rest == rest;
    } else {
      PlainReadsBack(s[1..], rest);
      assert (s + rest)[0] == s[0] && (s + rest)[1..] == s[1..] + rest;
      assert s == [s[0]] + s[1..];
      assert s[0] in s;
    }
  }

  lemma {:induction false} EscapeKeepsNewlines(s: string)
    ensures Count(Escape(s), '\n') == Count(s, '\n')
  {
    if s != "" {
      EscapeKeepsNewlines(s[1..]);
      var head := if Special(s[0]) then ['\\', s[0]] else [s[0]];
      CountAppend(head, Escape(s[1..]), '\n');
      CountAppend([s[0]], s[1..], '\n');
      assert s == [s[0]] + s[1..];
      assert head[1..] == if Special(s[0]) then [s[0]] else [];
    }
  }

  // --------------------------------------------------------- counting newlines

  function Count(s: string, c: char): nat {
    if s == "" then 0 else (if s[0] == c then 1 else 0) + Count(s[1..], c)
  }

  lemma {:induction false} CountAppend(a: string, b: string, c: char)
    ensures Count(a + b, c) == Count(a, c) + Count(b, c)
  {
    if a == "" {
      assert a + b == b;
    } else {
      assert (a + b)[1..] == a[1..] + b;
      CountAppend(a[1..], b, c);
    }
  }

  lemma {:induction false} CountZero(s: string, c: char)
    ensures Count(s, c) == 0 <==> c !in s
  {
    if s != "" {
      CountZero(s[1..], c);
      assert s == [s[0]] + s[1..];
    }
  }

  lemma {:induction false} SplitCounts(s: string, sep: char)
    ensures |Split(s, sep)| == 1 + Count(s, sep)
    decreases |s|
  {
    var i := IndexOf(s, sep);
    if i < 0 {
      CountZero(s, sep);
    } else {
      assert s == s[..i] + ([sep] + s[i + 1..]);
      CountAppend(s[..i], [sep] + s[i + 1..], sep);
      CountZero(s[..i], sep);
      assert ([sep] + s[i + 1..])[1..] == s[i + 1..];
      SplitCounts(s[i + 1..], sep);
    }
  }

  // ------------------------------------------------------------------- records

  type Int64 = n: int | -INT64_MAX - 1 <= n <= INT64_MAX

  /** What strconv.FormatFloat and FormatInt give: never empty, no space, no newline. */
  type Number = s: string | s != "" && ' ' !in s && '\n' !in s witness "0"

  datatype Tag = Tag(key: string, value: string)
  datatype Record = Record(name: string, tags: seq<Tag>, value: Number, ts: Int64)

  function TagText(t: Tag): string {
    t.key + ['='] + Escape(t.value)
  }

  function TagsText(tags: seq<Tag>): string {
    if tags == [] then "" else [','] + TagText(tags[0]) + TagsText(tags[1..])
  }

  const VALUE := " value="

  function LineText(r: Record): string {
    r.name + (TagsText(r.tags) + (VALUE + (r.value + ([' '] + IntText(r.ts)))))
  }

  function Rendered(records: seq<Record>): string {
    if records == [] then ""
    else Rendered(records[..|records| - 1]) + LineText(records[|records| - 1]) + ['\n']
  }

  // -------------------------------------------------------------------- decoder

  function ReadTags(s: string): Option<(seq<Tag>, string)>
    decreases |s|
  {
    if s == "" || s[0] != ',' then Some(([], s))
    else
      var (key, r1) := ReadToken(s[1..]);
      if r1 == "" || r1[0] != '=' then None
      else
        var (value, r2) := ReadToken(r1[1..]);
        match ReadTags(r2)
        case None => None
        case Some(more) => Some(([Tag(key, value)] + more.0, more.1))
  }

  function ReadLine(line: string): Option<Record> {
    var (name, r1) := ReadToken(line);
    match ReadTags(r1)
    case None => None
    case Some(tagged) => if HasPrefix(tagged.1, VALUE) then ReadFields(name, tagged.0, tagged.1[|VALUE|..]) else None
  }

  function ReadFields(name: string, tags: seq<Tag>, s: string): Option<Record> {
    var sp := IndexOf(s, ' ');
    if sp <= 0 || '\n' in s then None
    else
      match ParseInt64(s[sp + 1..])
      case None => None
      case Some(ts) => Some(Record(name, tags, s[..sp], ts))
  }

  function ReadLines(lines: seq<string>): Option<seq<Record>> {
    if lines == [] then Some([])
    else
      match (ReadLines(lines[..|lines| - 1]), ReadLine(lines[|lines| - 1]))
      case (Some(before), Some(r)) => Some(before + [r])
      case _ => None
  }

  /** Newline-terminated lines, each one record. */
  function Decode(text: string): Option<seq<Record>> {
    var lines := Split(text, '\n');
    if lines[|lines| - 1] != "" then None else ReadLines(lines[..|lines| - 1])
  }

  // ----------------------------------------------------------------- round trip

  /** Names and tag keys as the program writes them: nothing in them to escape. */
  ghost predicate WellNamed(r: Record) {
    PlainToken(r.name) && forall t :: t in r.tags ==> PlainToken(t.key)
  }

  ghost predicate OneLined(r: Record) {
    forall t :: t in r.tags ==> '\n' !in t.value
  }

  lemma {:induction false} TagsReadBack(tags: seq<Tag>, rest: string)
    requires forall t :: t in tags ==> PlainToken(t.key)
    requires rest != "" && rest[0] == ' '
    ensures ReadTags(TagsText(tags) + rest) == Some((tags, rest))
    decreases |tags|
  {
    hide PlainToken;
    hide Escape;
    hide ReadToken;
    var text := TagsText(tags) + rest;
    if tags == [] {
      assert text == rest;
    } else {
      var t, more := tags[0], TagsText(tags[1..]) + rest;
      assert t in tags;
      TagsReadBack(tags[1..], rest);
      var afterKey := ['='] + (Escape(t.value) + more);
      FirstTagText(tags, rest);
      PlainReadsBack(t.key, afterKey);
      assert afterKey[1..] == Escape(t.value) + more;
      TagsTextStops(tags[1..], rest);
      EscapeReadsBack(t.value, more);
      assert tags == [t] + tags[1..];
    }
  }

  lemma {:induction false} FirstTagText(tags: seq<Tag>, rest: string)
    requires tags != []
    ensures var text := TagsText(tags) + rest;
            text != "" && text[0] == ','
            && text[1..] == tags[0].key + (['='] + (Escape(tags[0].value) + (TagsText(tags[1..]) + rest)))
  {
    hide Escape;
    var t := tags[0];
    var tail := TagsText(tags[1..]);
    assert TagsText(tags) + rest == [','] + (t.key + (['='] + (Escape(t.value) + (tail + rest))));
  }

  lemma {:induction false} TagsTextStops(tags: seq<Tag>, rest: string)
    requires rest != "" && rest[0] == ' '
    ensures Stops(TagsText(tags) + rest)
  {
    if tags == [] {
      assert TagsText(tags) + rest == rest;
    }
  }

  lemma {:induction false} LineReadsBack(r: Record)
    requires WellNamed(r)
    ensures ReadLine(LineText(r)) == Some(r)
  {
    hide PlainToken;
    hide ReadToken;
    hide TagsText;
    hide ReadTags;
    hide ReadFields;
    hide IntText;
    var fields := r.value + ([' '] + IntText(r.ts));
    var rest := VALUE + fields;
    TagsTextStops(r.tags, rest);
    PlainReadsBack(r.name, TagsText(r.tags) + rest);
    TagsReadBack(r.tags, rest);
    assert rest[..|VALUE|] == VALUE && rest[|VALUE|..] == fields;
    FieldsReadBack(r);
  }

  lemma {:induction false} FieldsReadBack(r: Record)
    ensures ReadFields(r.name, r.tags, r.value + ([' '] + IntText(r.ts))) == Some(r)
  {
    hide IntText;
    hide ParseInt64;
    var ts := IntText(r.ts);
    var s := r.value + ([' '] + ts);
    assert s == r.value + [' '] + ts;
    IndexOfAppend(r.value, ' ', ts);
    assert s[..|r.value|] == r.value && s[|r.value| + 1..] == ts;
    ParseIntText(r.ts);
    IntTextChars(r.ts);
  }

  /** The newlines of a line are those of its tag values. */
  function TagNewlines(tags: seq<Tag>): nat {
    if tags == [] then 0 else Count(tags[0].value, '\n') + TagNewlines(tags[1..])
  }

  lemma {:induction false} TagNewlinesZero(tags: seq<Tag>)
    ensures TagNewlines(tags) == 0 <==> forall t :: t in tags ==> '\n' !in t.value
  {
    if tags != [] {
      TagNewlinesZero(tags[1..]);
      CountZero(tags[0].value, '\n');
      assert tags == [tags[0]] + tags[1..];
    }
  }

  lemma {:induction false} TagsTextNewlines(tags: seq<Tag>)
    requires forall t :: t in tags ==> PlainToken(t.key)
    ensures Count(TagsText(tags), '\n') == TagNewlines(tags)
  {
    hide Escape;
    if tags != [] {
      var t := tags[0];
      assert t in tags;
      TagsTextNewlines(tags[1..]);
      assert TagsText(tags) == ([','] + t.key + ['=']) + (Escape(t.value) + TagsText(tags[1..]));
      CountAppend([','] + t.key + ['='], Escape(t.value) + TagsText(tags[1..]), '\n');
      CountAppend(Escape(t.value), TagsText(tags[1..]), '\n');
      EscapeKeepsNewlines(t.value);
      CountZero([','] + t.key + ['='], '\n');
    }
  }

  lemma {:induction false} LineNewlines(r: Record)
    requires WellNamed(r)
    ensures Count(LineText(r), '\n') == TagNewlines(r.tags)
  {
    hide TagsText;
    hide IntText;
    var tail := VALUE + (r.value + ([' '] + IntText(r.ts)));
    IntTextChars(r.ts);
    CountZero(r.name, '\n');
    CountZero(tail, '\n');
    TagsTextNewlines(r.tags);
    CountAppend(TagsText(r.tags), tail, '\n');
    CountAppend(r.name, TagsText(r.tags) + tail, '\n');
  }

  function AllNewlines(records: seq<Record>): nat {
    if records == [] then 0
    else AllNewlines(records[..|records| - 1]) + TagNewlines(records[|records| - 1].tags)
  }

  lemma {:induction false} RenderedNewlines(records: seq<Record>)
    requires forall r :: r in records ==> WellNamed(r)
    ensures Count(Rendered(records), '\n') == |records| + AllNewlines(records)
  {
    hide LineText;
    hide WellNamed;
    if records != [] {
      var n := |records| - 1;
      var line := LineText(records[n]);
      assert records[n] in records;
      RenderedNewlines(records[..n]);
      LineNewlines(records[n]);
      CountAppend(Rendered(records[..n]) + line, ['\n'], '\n');
      CountAppend(Rendered(records[..n]), line, '\n');
      assert ['\n'][1..] == "";
    }
  }

  lemma {:induction false} AllNewlinesZero(records: seq<Record>)
    ensures AllNewlines(records) == 0 <==> forall r :: r in records ==> OneLined(r)
  {
    hide OneLined;
    if records != [] {
      var n := |records| - 1;
      AllNewlinesZero(records[..n]);
      TagNewlinesZero(records[n].tags);
      assert OneLined(records[n]) <==> TagNewlines(records[n].tags) == 0 by {
        IsOneLined(records[n]);
      }
      assert records == records[..n] + [records[n]];
    }
  }

  lemma {:induction false} IsOneLined(r: Record)
    ensures OneLined(r) <==> TagNewlines(r.tags) == 0
  {
    TagNewlinesZero(r.tags);
  }

  function LinesOf(records: seq<Record>): seq<string> {
    seq(|records|, i requires 0 <= i < |records| => LineText(records[i]))
  }

  lemma {:induction false} SplitRendered(records: seq<Record>, rest: string)
    requires forall r :: r in records ==> WellNamed(r) && OneLined(r)
    ensures Split(Rendered(records) + rest, '\n') == LinesOf(records) + Split(rest, '\n')
    decreases |records|
  {
    hide LineText;
    hide WellNamed;
    hide OneLined;
    hide Split;
    if records == [] {
      assert Rendered(records) + rest == rest;
    } else {
      var n := |records| - 1;
      var line := LineText(records[n]);
      assert records[n] in records;
      SplitRendered(records[..n], line + ['\n'] + rest);
      LineNewlines(records[n]);
      IsOneLined(records[n]);
      CountZero(line, '\n');
      SplitCons(line, '\n', rest);
      assert Rendered(records) + rest == Rendered(records[..n]) + (line + ['\n'] + rest);
      assert LinesOf(records) == LinesOf(records[..n]) + [line];
    }
  }

  lemma {:induction false} LinesReadBack(records: seq<Record>)
    requires forall r :: r in records ==> WellNamed(r)
    ensures ReadLines(LinesOf(records)) == Some(records)
  {
    hide LineText;
    hide ReadLine;
    hide WellNamed;
    if records != [] {
      var n := |records| - 1;
      assert records[n] in records;
      LinesReadBack(records[..n]);
      LineReadsBack(records[n]);
      assert LinesOf(records)[..n] == LinesOf(records[..n]);
      assert records == records[..n] + [records[n]];
    }
  }

  lemma {:induction false} ReadLinesLength(lines: seq<string>)
    ensures ReadLines(lines).Some? ==> |ReadLines(lines).value| == |lines|
  {
    hide ReadLine;
    if lines != [] {
      ReadLinesLength(lines[..|lines| - 1]);
    }
  }

  lemma {:induction false} OneLinedDecodes(records: seq<Record>)
    requires forall r :: r in records ==> WellNamed(r) && OneLined(r)
    ensures Decode(Rendered(records)) == Some(records)
  {
    hide WellNamed;
    hide OneLined;
    hide Split;
    hide ReadLines;
    var text := Rendered(records);
    var lines := Split(text, '\n');
    SplitRendered(records, "");
    assert text + "" == text;
    NothingToSplit();
    assert lines == LinesOf(records) + [""];
    assert lines[..|lines| - 1] == LinesOf(records);
    LinesReadBack(records);
  }

  lemma {:induction false} NewlineSpoils(records: seq<Record>)
    requires (forall r :: r in records ==> WellNamed(r)) && !(forall r :: r in records ==> OneLined(r))
    ensures Decode(Rendered(records)) != Some(records)
  {
    hide WellNamed;
    hide OneLined;
    hide Split;
    hide ReadLines;
    hide Rendered;
    hide AllNewlines;
    hide Count;
    var text := Rendered(records);
    var lines := Split(text, '\n');
    AllNewlinesZero(records);
    RenderedNewlines(records);
    SplitCounts(text, '\n');
    ReadLinesLength(lines[..|lines| - 1]);
  }

  /** Decoding recovers exactly the records that were rendered, if and only if no tag value holds a
      newline; backslashes, commas, equals signs and spaces do no harm. */
  lemma {:induction false} DecodeUndoesRendering(records: seq<Record>)
    requires forall r :: r in records ==> WellNamed(r)
    ensures Decode(Rendered(records)) == Some(records) <==> forall r :: r in records ==> OneLined(r)
  {
    hide WellNamed;
    hide OneLined;
    hide Decode;
    hide Rendered;
    if forall r :: r in records ==> OneLined(r) {
      OneLinedDecodes(records);
    } else {
      NewlineSpoils(records);
    }
  }

  lemma {:induction false} NothingToSplit()
    ensures Split("", '\n') == [""]
  {
  }

  // ----------------------------------------------------------------- the emitters

  /** The emit closures: one line. `extra` is a further tag, already escaped, or nothing. */
  function EmittedLine(prefix: string, tags: string, name: string, extra: string, value: string, ts: int): string {
    prefix + name + [','] + tags + (if extra != "" then [','] + extra else "") + VALUE + value + [' '] + IntText(ts) + ['\n']
  }

  lemma {:induction false} EmittedIsRendered(
    records: seq<Record>, prefix: string, shared: seq<Tag>, name: string, extra: seq<Tag>, value: Number, ts: Int64)
    requires shared != [] && |extra| <= 1
    ensures Rendered(records + [Record(prefix + name, shared + extra, value, ts)])
         == Rendered(records) + EmittedLine(prefix, TagsText(shared)[1..], name, if extra == [] then "" else TagText(extra[0]), value, ts)
  {
    hide IntText;
    hide TagText;
    hide TagsText;
    var r := Record(prefix + name, shared + extra, value, ts);
    var more := if extra == [] then "" else [','] + TagText(extra[0]);
    assert (records + [r])[..|records|] == records;
    EmittedTags(shared, extra);
    LineJoined(prefix + name, TagsText(shared), more, r.value, IntText(ts));
    if extra != [] {
      TagTextIsLong(extra[0]);
    }
  }

  lemma {:induction false} TagTextIsLong(t: Tag)
    ensures TagText(t) != ""
  {
  }

  lemma {:induction false} LineJoined(name: string, shared: string, more: string, value: string, ts: string)
    requires shared != "" && shared[0] == ','
    ensures name + ((shared + more) + (VALUE + (value + ([' '] + ts)))) + ['\n']
         == name + [','] + shared[1..] + more + VALUE + value + [' '] + ts + ['\n']
  {
    assert shared == [','] + shared[1..];
  }

  lemma {:induction false} EmittedTags(shared: seq<Tag>, extra: seq<Tag>)
    requires shared != [] && |extra| <= 1
    ensures TagsText(shared + extra) == TagsText(shared) + (if extra == [] then "" else [','] + TagText(extra[0]))
    ensures TagsText(shared) != "" && TagsText(shared)[0] == ','
  {
    hide TagText;
    TagsAppend(shared, extra);
    if extra != [] {
      assert extra[1..] == [];
    }
  }

  lemma {:induction false} TagsAppend(a: seq<Tag>, b: seq<Tag>)
    ensures TagsText(a + b) == TagsText(a) + TagsText(b)
  {
    hide TagText;
    if a == [] {
      assert a + b == b;
    } else {
      assert (a + b)[1..] == a[1..] + b;
      TagsAppend(a[1..], b);
    }
  }

  lemma {:induction false} PlainEscape(s: string)
    requires PlainToken(s)
    ensures Escape(s) == s
  {
    if s != "" {
      assert s[0] in s && forall c :: c in s[1..] ==> c in s;
      PlainEscape(s[1..]);
      assert s == [s[0]] + s[1..];
    }
  }

  /** The line of a record whose one tag needs no escaping, as a server reads it. */
  lemma {:induction false} PlainLine(name: string, key: string, text: string, value: Number, ts: Int64)
    requires PlainToken(text)
    ensures Rendered([Record(name, [Tag(key, text)], value, ts)]) ==
            name + "," + key + "=" + text + " value=" + value + " " + IntText(ts) + "\n"
  {
    hide IntText;
    hide TagsText;
    hide LineText;
    var r := Record(name, [Tag(key, text)], value, ts);
    PlainTag(key, text);
    PlainLineText(r, "," + key + "=" + text);
    assert [r][..0] == [] && Rendered([r]) == "" + LineText(r) + ['\n'];
    hide Rendered;
    assert name + ("," + key + "=" + text) + " value=" + value + " " + IntText(ts) ==
      name + "," + key + "=" + text + " value=" + value + " " + IntText(ts);
  }

  lemma {:induction false} PlainTag(key: string, text: string)
    requires PlainToken(text)
    ensures TagsText([Tag(key, text)]) == "," + key + "=" + text
  {
    PlainEscape(text);
    hide Escape;
    var t := Tag(key, text);
    assert [t][1..] == [] && TagsText([t]) == [','] + TagText(t) + "";
  }

  lemma {:induction false} PlainLineText(r: Record, tags: string)
    requires TagsText(r.tags) == tags
    ensures LineText(r) == r.name + tags + " value=" + r.value + " " + IntText(r.ts)
  {
    hide TagsText;
    hide IntText;
    var tail := r.value + ([' '] + IntText(r.ts));
    assert LineText(r) == r.name + (tags + (" value=" + tail));
    assert r.name + (tags + (" value=" + tail)) == r.name + tags + " value=" + tail;
  }
}
