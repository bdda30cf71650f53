/** Incremental tailing of one remote log file (internal/collector/logtail.go). */
module LogTail {
  import opened Text

  const DEFAULT_MAX_BYTES := 1024 * 1024
  const SIZE_PREFIX := "SIZE:"

  function MaxBytes(configured: int): (n: nat)
    ensures n > 0
  {
    if configured <= 0 then DEFAULT_MAX_BYTES else configured
  }

  // ------------------------------------------------------- the remote command

  /** What one run of the remote command meets: is the file readable, does stat answer, what the
      file holds then, does tail answer, and what the file holds when it reads. */
  datatype Sight = Sight(readable: bool, sized: bool, atStat: string, tailed: bool, atRead: string)

  /** The size the command reports; an unreadable file reports 0. */
  function SizeSeen(v: Sight): nat {
    if v.readable && v.sized then |v.atStat| else 0
  }

  /** The byte the command reads from, counted from 0. */
  function ReadStart(v: Sight, prevOffset: nat): nat {
    if SizeSeen(v) < prevOffset then 0 else prevOffset
  }

  /** tail -c +N | head -c max. */
  function BodySeen(v: Sight, prevOffset: nat, maxBytes: nat): string {
    var start := ReadStart(v, prevOffset);
    if !v.readable || !v.tailed || start >= |v.atRead| then ""
    else if |v.atRead| - start <= maxBytes then v.atRead[start..]
    else v.atRead[start..start + maxBytes]
  }

  function RemoteOutput(v: Sight, prevOffset: nat, maxBytes: nat): string {
    SIZE_PREFIX + IntText(SizeSeen(v)) + ['\n'] + BodySeen(v, prevOffset, maxBytes)
  }

  // ------------------------------------------------------ reading its output

  /** (size, remaining bytes), None for a missing or malformed header. */
  function ParseTailOutput(raw: string): Option<(int, string)> {
    var nl := IndexOf(raw, '\n');
    if nl < 0 || !HasPrefix(raw, SIZE_PREFIX) || nl < |SIZE_PREFIX| then None
    else
      match ParseInt64(TrimSpace(raw[|SIZE_PREFIX|..nl]))
      case None => None
      case Some(size) => Some((size, raw[nl + 1..]))
  }

  function SplitLines(s: string): seq<string> {
    if s == "" then []
    else
      var parts := Split(s, '\n');
      if parts[|parts| - 1] == "" then parts[..|parts| - 1] else parts
  }

  function NonEmpty(lines: seq<string>): seq<string> {
    if lines == [] then []
    else NonEmpty(lines[..|lines| - 1]) + if lines[|lines| - 1] == "" then [] else [lines[|lines| - 1]]
  }

  /** The log entries of a body: its non-empty lines. */
  function Entries(body: string): seq<string> {
    NonEmpty(SplitLines(body))
  }

  function NewOffset(prevOffset: nat, size: int, consumed: nat): nat {
    if size < prevOffset then consumed
    else if prevOffset + consumed > size then size
    else prevOffset + consumed
  }

  /** What GetLogCursor answers. */
  datatype CursorRead = Found(offset: nat) | NotFound | ReadError

  datatype TailResult = Tailed(newOffset: nat, entries: seq<string>) | TailFailed

  function PrevOffset(c: CursorRead): nat {
    if c.Found? then c.offset else 0
  }

  /** TailFile, `stdout` being None when the SSH run fails. */
  function TailSpec(cursor: CursorRead, stdout: Option<string>): TailResult {
    if cursor.ReadError? || stdout.None? then TailFailed
    else
      match ParseTailOutput(stdout.value)
      case None => TailFailed
      case Some((size, body)) => Tailed(NewOffset(PrevOffset(cursor), size, |body|), Entries(body))
  }

  method TailFile(cursor: CursorRead, stdout: Option<string>) returns (r: TailResult)
    ensures r == TailSpec(cursor, stdout)
  {
    hide ParseTailOutput;
    hide SplitLines;
    var prevOffset := 0;
    match cursor {
      case Found(offset) => prevOffset := offset;
      case NotFound =>
      case ReadError => return TailFailed;
    }
    if stdout.None? {
      return TailFailed;
    }
    var parsed := ParseTailOutput(stdout.value);
    if parsed.None? {
      return TailFailed;
    }
    var (size, body) := parsed.value;
    var newOffset := |body|;
    if size >= prevOffset {
      newOffset := prevOffset + |body|;
      if newOffset > size {
        newOffset := size;
      }
    }
    var entries: seq<string> := [];
    var lines := SplitLines(body);
    for i := 0 to |lines|
      invariant entries == NonEmpty(lines[..i])
    {
      assert lines[..i + 1][..i] == lines[..i];
      if lines[i] != "" {
        entries := entries + [lines[i]];
      }
    }
    assert lines[..|lines|] == lines;
    r := Tailed(newOffset, entries);
  }

  // ------------------------------------------------ what one tail accomplishes

  lemma {:induction false} NumberIsTrimmed(size: nat)
    ensures '\n' !in IntText(size) && TrimSpace(IntText(size)) == IntText(size)
  {
    hide NatText;
    hide TrimSpace;
    IntTextChars(size);
    var text := IntText(size);
    assert text[0] in text && text[|text| - 1] in text;
    TrimSpaceIdentity(text);
  }

  /** The header and body come back as sent; a size past int64 is refused. */
  lemma {:induction false} HeaderRoundTrip(size: nat, body: string)
    ensures ParseTailOutput(SIZE_PREFIX + IntText(size) + ['\n'] + body) ==
            if size <= INT64_MAX then Some((size, body)) else None
  {
    hide IntText;
    hide ParseInt64;
    hide TrimSpace;
    hide IndexOf;
    NumberIsTrimmed(size);
    ParseIntText(size);
    var text := IntText(size);
    var head := SIZE_PREFIX + text;
    assert '\n' !in SIZE_PREFIX;
    IndexOfAppend(head, '\n', body);
    var raw := head + ['\n'] + body;
    assert raw[..|SIZE_PREFIX|] == SIZE_PREFIX;
    assert raw[|SIZE_PREFIX|..|head|] == text && raw[|head| + 1..] == body;
  }

  /** One tail against a remote file: the offset and the entries, in terms of what was seen. */
  lemma {:induction false} TailAgainstFile(cursor: CursorRead, v: Sight, maxBytes: nat)
    requires !cursor.ReadError?
    ensures var prev := PrevOffset(cursor);
            var body := BodySeen(v, prev, maxBytes);
            TailSpec(cursor, Some(RemoteOutput(v, prev, maxBytes))) ==
            if SizeSeen(v) > INT64_MAX then TailFailed
            else Tailed(NewOffset(prev, SizeSeen(v), |body|), Entries(body))
  {
    var prev := PrevOffset(cursor);
    HeaderRoundTrip(SizeSeen(v), BodySeen(v, prev, maxBytes));
  }

  lemma {:induction false} ConcatNonEmpty(lines: seq<string>)
    ensures Concat(NonEmpty(lines)) == Concat(lines)
  {
    if lines != [] {
      var init, last := lines[..|lines| - 1], lines[|lines| - 1];
      ConcatNonEmpty(init);
      assert lines == init + [last];
      ConcatAppend(init, [last]);
      assert Concat([last]) == last + Concat([]) == last;
      ConcatAppend(NonEmpty(init), if last == "" then [] else [last]);
    }
  }

  lemma {:induction false} ConcatCons(first: string, rest: seq<string>)
    ensures Concat([first] + rest) == first + Concat(rest)
  {
    assert ([first] + rest)[1..] == rest;
  }

  lemma {:induction false} WithoutCut(a: string, c: char, b: string)
    requires c !in a
    ensures Without(a + [c] + b, c) == a + Without(b, c)
  {
    assert ([c] + b)[1..] == b;
    assert Without([c] + b, c) == "" + Without(b, c) == Without(b, c);
    hide Without;
    assert a + [c] + b == a + ([c] + b);
    WithoutAppend(a, [c] + b, c);
    WithoutNone(a, c);
  }

  lemma {:induction false} ConcatOne(s: string)
    ensures Concat([s]) == s
  {
    assert [s][1..] == [] && s + Concat([]) == s;
  }

  lemma {:induction false} SplitUncut(s: string, c: char)
    requires c !in s
    ensures Split(s, c) == [s]
  {
  }

  lemma {:induction false} ConcatSplit(s: string, c: char)
    ensures Concat(Split(s, c)) == Without(s, c)
    decreases |s|
  {
    hide Concat;
    hide Without;
    hide Split;
    hide IndexOf;
    var i := IndexOf(s, c);
    if i < 0 {
      SplitUncut(s, c);
      WithoutNone(s, c);
      ConcatOne(s);
    } else {
      var a, b := s[..i], s[i + 1..];
      assert s == a + [c] + b;
      SplitCons(a, c, b);
      ConcatSplit(b, c);
      ConcatCons(a, Split(b, c));
      WithoutCut(a, c, b);
    }
  }

  /** The entries of a body carry its bytes, newlines aside, each once and in order. */
  lemma {:induction false} EntriesCarryBody(body: string)
    ensures Concat(Entries(body)) == Without(body, '\n')
  {
    hide Split;
    hide NonEmpty;
    if body == "" {
      ConcatNonEmpty([]);
    } else {
      hide Without;
      var parts := Split(body, '\n');
      ConcatSplit(body, '\n');
      ConcatNonEmpty(SplitLines(body));
      if parts[|parts| - 1] == "" {
        assert parts == parts[..|parts| - 1] + [""];
        ConcatAppend(parts[..|parts| - 1], [""]);
        assert Concat([""]) == "" + Concat([]) == "";
      }
    }
  }

  lemma {:induction false} WithoutKeeps(s: string, c: char, i: nat)
    requires i < |s| && s[i] != c
    ensures s[i] in Without(s, c)
  {
    if i > 0 {
      WithoutKeeps(s[1..], c, i - 1);
    }
  }

  /** A body that yields no entries is all newlines. */
  lemma {:induction false} NoEntriesNoBytes(body: string, i: nat)
    requires i < |body| && body[i] != '\n'
    ensures Entries(body) != []
  {
    EntriesCarryBody(body);
    WithoutKeeps(body, '\n', i);
  }

  // --------------------------------------------------------- entries are lines

  /** Lines as a file holds them, each with its LF. */
  function Print(lines: seq<string>): string {
    if lines == [] then "" else lines[0] + ['\n'] + Print(lines[1..])
  }

  /** Those that are not empty, in order. */
  function Kept(lines: seq<string>): seq<string> {
    if lines == [] then [] else (if lines[0] == "" then [] else [lines[0]]) + Kept(lines[1..])
  }

  lemma {:induction false} KeptSnoc(lines: seq<string>, last: string)
    ensures Kept(lines + [last]) == Kept(lines) + if last == "" then [] else [last]
  {
    if lines == [] {
      assert [last][1..] == [] && [] + [last] == [last];
    } else {
      assert (lines + [last])[1..] == lines[1..] + [last];
      KeptSnoc(lines[1..], last);
    }
  }

  lemma {:induction false} NonEmptyIsKept(lines: seq<string>)
    ensures NonEmpty(lines) == Kept(lines)
  {
    hide Kept;
    if lines == [] {
      NothingKept();
    } else {
      var n := |lines| - 1;
      NonEmptyIsKept(lines[..n]);
      assert lines == lines[..n] + [lines[n]];
      KeptSnoc(lines[..n], lines[n]);
    }
  }

  lemma {:induction false} NothingKept()
    ensures Kept([]) == []
  {
  }

  lemma {:induction false} PrintCons(lines: seq<string>, last: string)
    requires lines != []
    ensures Print(lines) + last == lines[0] + ['\n'] + (Print(lines[1..]) + last)
  {
    var head, tail := lines[0] + ['\n'], Print(lines[1..]);
    assert Print(lines) == head + tail;
    assert head + tail + last == head + (tail + last);
  }

  lemma {:induction false} SplitNothing(last: string)
    requires '\n' !in last
    ensures Split(Print([]) + last, '\n') == [] + [last]
  {
    assert Print([]) + last == last;
  }

  lemma {:induction false} SplitPrinted(lines: seq<string>, last: string)
    requires (forall l :: l in lines ==> '\n' !in l) && '\n' !in last
    ensures Split(Print(lines) + last, '\n') == lines + [last]
  {
    hide Split;
    hide Print;
    if lines == [] {
      SplitNothing(last);
    } else {
      assert lines[0] in lines && forall l :: l in lines[1..] ==> l in lines;
      SplitPrinted(lines[1..], last);
      PrintCons(lines, last);
      SplitCons(lines[0], '\n', Print(lines[1..]) + last);
      assert [lines[0]] + (lines[1..] + [last]) == lines + [last];
    }
  }

  /** A body of whole lines, and perhaps a last one without its LF, gives back just the lines that are not
      empty, in order. */
  lemma {:induction false} EntriesAreTheLines(lines: seq<string>, last: string)
    requires (forall l :: l in lines ==> '\n' !in l) && '\n' !in last
    ensures Entries(Print(lines) + last) == Kept(lines + [last])
    ensures last == "" ==> Entries(Print(lines)) == Kept(lines)
  {
    hide Kept;
    hide NonEmpty;
    var body := Print(lines) + last;
    KeptSnoc(lines, last);
    NonEmptyIsKept(lines);
    NonEmptyIsKept(lines + [last]);
    SplitPrinted(lines, last);
    hide Split;
    if last == "" {
      assert body == Print(lines);
      assert (lines + [last])[..|lines|] == lines;
      if lines == [] {
        NothingKept();
      } else {
        PrintIsLong(lines);
      }
    } else {
      assert |body| > 0;
    }
  }

  lemma {:induction false} PrintIsLong(lines: seq<string>)
    requires lines != []
    ensures Print(lines) != ""
  {
  }

  /** Every body is such a print, of lines that its entries are. */
  lemma {:induction false} BodyIsPrinted(body: string) returns (lines: seq<string>, last: string)
    ensures (forall l :: l in lines ==> '\n' !in l) && '\n' !in last && body == Print(lines) + last
    decreases |body|
  {
    var i := IndexOf(body, '\n');
    if i < 0 {
      lines, last := [], body;
    } else {
      var rest;
      rest, last := BodyIsPrinted(body[i + 1..]);
      lines := [body[..i]] + rest;
      assert lines[1..] == rest;
      assert body == body[..i] + ['\n'] + body[i + 1..];
      assert body[..i] + ['\n'] + (Print(rest) + last) == body[..i] + ['\n'] + Print(rest) + last;
    }
  }

  lemma {:induction false} KeptAreLines(lines: seq<string>)
    requires forall l :: l in lines ==> '\n' !in l
    ensures forall e :: e in Kept(lines) ==> e != "" && '\n' !in e
  {
    if lines != [] {
      assert lines[0] in lines && forall l :: l in lines[1..] ==> l in lines;
      KeptAreLines(lines[1..]);
    }
  }

  /** Whatever the body, no entry is empty and none holds an LF. */
  lemma {:induction false} EntriesAreLines(body: string)
    ensures forall e :: e in Entries(body) ==> e != "" && '\n' !in e
  {
    hide Entries;
    hide Kept;
    hide Print;
    var lines, last := BodyIsPrinted(body);
    EntriesAreTheLines(lines, last);
    KeptAreLines(lines + [last]);
  }

  // --------------------------------------------------------- catching up

  function OneCycle(file: string, c: nat, maxBytes: nat): TailResult {
    TailSpec(Found(c), Some(RemoteOutput(Sight(true, true, file, true, file), c, maxBytes)))
  }

  function Next(size: nat, c: nat, m: nat): nat {
    if c + m <= size then c + m else size
  }

  /** Where `k` cycles of `m` bytes each lead from `c` in a file of `size` bytes. */
  function Reached(size: nat, c: nat, m: nat, k: nat): nat {
    if k == 0 then c else Next(size, Reached(size, c, m, k - 1), m)
  }

  /** Cursor and pushed text after `k` fault-free cycles over a file that does not change. */
  function CatchUp(file: string, cursor: nat, maxBytes: nat, k: nat): (nat, string) {
    if k == 0 then (cursor, "")
    else
      var before := CatchUp(file, cursor, maxBytes, k - 1);
      AddCycle(before.1, OneCycle(file, before.0, maxBytes), before.0)
  }

  function AddCycle(text: string, r: TailResult, c: nat): (nat, string) {
    if r.Tailed? then (r.newOffset, text + Concat(r.entries)) else (c, text)
  }

  lemma {:induction false} QuiescentBody(file: string, c: nat, maxBytes: nat)
    requires c <= |file|
    ensures var v := Sight(true, true, file, true, file);
            && c <= Next(|file|, c, maxBytes) <= |file| && SizeSeen(v) == |file|
            && BodySeen(v, c, maxBytes) == file[c..Next(|file|, c, maxBytes)]
  {
  }

  /** One fault-free cycle over a quiescent file. */
  lemma {:induction false} QuiescentTail(file: string, c: nat, maxBytes: nat)
    requires c <= |file| <= INT64_MAX && maxBytes > 0
    ensures c <= Next(|file|, c, maxBytes) <= |file|
    ensures OneCycle(file, c, maxBytes) ==
            Tailed(Next(|file|, c, maxBytes), Entries(file[c..Next(|file|, c, maxBytes)]))
  {
    var v := Sight(true, true, file, true, file);
    TailAgainstFile(Found(c), v, maxBytes);
    QuiescentBody(file, c, maxBytes);
    hide TailSpec;
    hide RemoteOutput;
    hide BodySeen;
    hide SizeSeen;
    hide Entries;
  }

  /** The text pushed once the cursor has gone from `c` to `upTo`. */
  function PushedText(file: string, c: nat, upTo: nat): string
    requires c <= upTo <= |file|
  {
    Without(file[c..upTo], '\n')
  }

  lemma {:induction false} MoreText(file: string, c: nat, before: nat, after: nat)
    requires c <= before <= after <= |file|
    ensures PushedText(file, c, after) == PushedText(file, c, before) + Concat(Entries(file[before..after]))
  {
    hide Without;
    hide Entries;
    hide Concat;
    EntriesCarryBody(file[before..after]);
    assert file[c..after] == file[c..before] + file[before..after];
    WithoutAppend(file[c..before], file[before..after], '\n');
  }

  lemma {:induction false} CycleAddsText(file: string, c: nat, before: nat, maxBytes: nat)
    requires c <= before <= |file| <= INT64_MAX && maxBytes > 0
    ensures before <= Next(|file|, before, maxBytes) <= |file|
    ensures AddCycle(PushedText(file, c, before), OneCycle(file, before, maxBytes), before) ==
            (Next(|file|, before, maxBytes), PushedText(file, c, Next(|file|, before, maxBytes)))
  {
    hide PushedText;
    hide OneCycle;
    hide Entries;
    QuiescentTail(file, before, maxBytes);
    MoreText(file, c, before, Next(|file|, before, maxBytes));
  }

  /** After k cycles the pushed entries are the bytes the cursor has passed, newlines aside, each
      once and in order. */
  lemma {:induction false} CatchUpAfter(file: string, c: nat, maxBytes: nat, k: nat)
    requires c <= |file| <= INT64_MAX && maxBytes > 0
    ensures c <= Reached(|file|, c, maxBytes, k) <= |file|
    ensures CatchUp(file, c, maxBytes, k) ==
            (Reached(|file|, c, maxBytes, k), PushedText(file, c, Reached(|file|, c, maxBytes, k)))
  {
    hide OneCycle;
    hide AddCycle;
    if k == 0 {
      assert file[c..c] == "";
    } else {
      hide PushedText;
      CatchUpAfter(file, c, maxBytes, k - 1);
      CycleAddsText(file, c, Reached(|file|, c, maxBytes, k - 1), maxBytes);
    }
  }

  function CyclesNeeded(bytes: nat, m: nat): nat
    requires m > 0
  {
    (bytes + m - 1) / m
  }

  lemma {:induction false} CeilDivision(n: nat, m: nat, k: nat)
    requires m > 0
    ensures k * m >= n <==> k >= CyclesNeeded(n, m)
  {
    var q := (n + m - 1) / m;
    assert n + m - 1 == q * m + (n + m - 1) % m;
    if k >= q {
      assert k * m >= q * m;
    } else {
      assert k * m <= (q - 1) * m;
      assert (q - 1) * m == q * m - m;
    }
  }

  lemma {:induction false} ReachedProduct(size: nat, c: nat, m: nat, k: nat)
    requires c <= size
    ensures Reached(size, c, m, k) == Next(size, c, k * m)
  {
    if k > 0 {
      ReachedProduct(size, c, m, k - 1);
      assert k * m == (k - 1) * m + m;
    }
  }

  /** Exactly ceil((S - c) / max) cycles reach the end of a quiescent file: fewer do not, and later
      ones push nothing and stay. What they push together is the rest of the file without newlines. */
  lemma {:induction false} CatchUpTakesCeil(file: string, c: nat, maxBytes: nat, k: nat)
    requires c <= |file| <= INT64_MAX && maxBytes > 0
    ensures CatchUp(file, c, maxBytes, k).0 == |file| <==> k >= CyclesNeeded(|file| - c, maxBytes)
    ensures CatchUp(file, c, maxBytes, k).0 == |file| ==>
              CatchUp(file, c, maxBytes, k).1 == Without(file[c..], '\n')
    ensures OneCycle(file, |file|, maxBytes) == Tailed(|file|, [])
  {
    hide CatchUp;
    hide OneCycle;
    hide Reached;
    hide CyclesNeeded;
    CatchUpAfter(file, c, maxBytes, k);
    ReachedProduct(|file|, c, maxBytes, k);
    CeilDivision(|file| - c, maxBytes, k);
    assert file[c..|file|] == file[c..];
    hide PushedText;
    QuiescentTail(file, |file|, maxBytes);
    assert file[|file|..|file|] == "";
  }

  /** A file read whole in one cycle, from its beginning: its non-empty lines, in order. */
  lemma {:induction false} WholeFileInOneCycle(lines: seq<string>, last: string, maxBytes: nat)
    requires (forall l :: l in lines ==> '\n' !in l) && '\n' !in last
    requires |Print(lines) + last| <= maxBytes && |Print(lines) + last| <= INT64_MAX && maxBytes > 0
    ensures OneCycle(Print(lines) + last, 0, maxBytes) == Tailed(|Print(lines) + last|, Kept(lines + [last]))
  {
    hide OneCycle;
    hide Entries;
    hide Print;
    var file := Print(lines) + last;
    EntriesAreTheLines(lines, last);
    QuiescentTail(file, 0, maxBytes);
    assert file[0..|file|] == file;
  }

  // ------------------------------------------------------------- what is refused

  /** The output begins with a size header: its number, and what follows its line. */
  ghost predicate HasHeader(raw: string, size: int, body: string) {
    exists text: string :: '\n' !in text && raw == "SIZE:" + text + ['\n'] + body && ParseInt64(TrimSpace(text)) == Some(size)
  }

  lemma {:induction false} HeaderParses(text: string, body: string)
    requires '\n' !in text
    ensures ParseTailOutput(SIZE_PREFIX + text + ['\n'] + body) ==
            match ParseInt64(TrimSpace(text)) case None => None case Some(size) => Some((size, body))
  {
    hide ParseInt64;
    hide TrimSpace;
    hide IndexOf;
    var head := SIZE_PREFIX + text;
    var raw := head + ['\n'] + body;
    assert '\n' !in SIZE_PREFIX;
    IndexOfAppend(head, '\n', body);
    assert raw[..|SIZE_PREFIX|] == SIZE_PREFIX && raw[|SIZE_PREFIX|..|head|] == text && raw[|head| + 1..] == body;
  }

  /** An output is read if and only if it begins with a size header, and then as that size and the rest. */
  lemma {:induction false} ReadsIffHeader(raw: string, size: int, body: string)
    ensures ParseTailOutput(raw) == Some((size, body)) <==> HasHeader(raw, size, body)
  {
    if ParseTailOutput(raw) == Some((size, body)) {
      hide ParseInt64;
      hide TrimSpace;
      var nl := IndexOf(raw, '\n');
      var text := raw[|SIZE_PREFIX|..nl];
      assert forall i :: 0 <= i < |text| ==> text[i] == raw[..nl][i + |SIZE_PREFIX|];
      assert raw == raw[..|SIZE_PREFIX|] + text + ['\n'] + raw[nl + 1..];
    }
    hide ParseTailOutput;
    if HasHeader(raw, size, body) {
      var text :| '\n' !in text && raw == SIZE_PREFIX + text + ['\n'] + body && ParseInt64(TrimSpace(text)) == Some(size);
      HeaderParses(text, body);
    }
  }

  /** A tail fails if and only if the cursor cannot be read, the command fails, or its output has no
      header; a cursor that is not found counts as 0. */
  lemma {:induction false} TailFailsIff(cursor: CursorRead, stdout: Option<string>)
    ensures TailSpec(cursor, stdout).TailFailed? <==>
            cursor.ReadError? || stdout.None? || forall size: int, body: string :: !HasHeader(stdout.value, size, body)
    ensures TailSpec(NotFound, stdout) == TailSpec(Found(0), stdout)
  {
    hide HasHeader;
    hide Entries;
    if stdout.Some? {
      var parsed := ParseTailOutput(stdout.value);
      hide ParseTailOutput;
      if parsed.Some? {
        ReadsIffHeader(stdout.value, parsed.value.0, parsed.value.1);
      } else {
        forall size: int, body: string ensures !HasHeader(stdout.value, size, body) {
          ReadsIffHeader(stdout.value, size, body);
        }
      }
    }
  }

  /** Where a tail leaves the cursor. Past a rotation it counts the bytes read; otherwise it goes on by
      these, but never past the size reported. */
  lemma {:induction false} TailOffset(cursor: CursorRead, raw: string, size: int, body: string)
    requires !cursor.ReadError? && HasHeader(raw, size, body)
    ensures var r, prev := TailSpec(cursor, Some(raw)), if cursor.Found? then cursor.offset else 0;
            && r.Tailed? && r.entries == Entries(body)
            && (size < prev ==> r.newOffset == |body|)
            && (size >= prev ==> prev <= r.newOffset <= size && (r.newOffset == prev + |body| || (r.newOffset == size < prev + |body|)))
  {
    hide HasHeader;
    hide Entries;
    hide ParseTailOutput;
    ReadsIffHeader(raw, size, body);
  }
}
