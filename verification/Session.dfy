/** One server's stream (internal/streamer/session.go): scanning the remote command's output,
    dispatching its lines, and building the remote command. */
module Sessions {
  import opened Text
  import opened StreamProtocol
  import opened Shell

  // ------------------------------------------------------------ scanning lines

  /** bufio.ScanLines drops one trailing CR from every line. */
  function DropCR(line: string): string {
    if line != [] && line[|line| - 1] == '\r' then line[..|line| - 1] else line
  }

  /** One, and no other byte. */
  lemma {:induction false} OneCRDropped(text: string)
    ensures DropCR(text + "\r") == text
    ensures text == "" || text[|text| - 1] != '\r' ==> DropCR(text) == text
  {
    assert (text + "\r")[..|text|] == text;
  }

  /** What bufio.Scanner yields: the lines, and whether it gave up on one that is too long. */
  datatype Scanned = Scanned(lines: seq<string>, tooLong: bool)

  /** bufio.Scanner with a buffer of `cap` bytes. A line fits if its LF does; a last line with no
      LF fits if the buffer still has room when the end of the stream is read. */
  function Scan(input: string, cap: nat): Scanned
    decreases |input|
  {
    var nl := IndexOf(input, '\n');
    if nl < 0 then
      if input == [] then Scanned([], false)
      else if |input| < cap then Scanned([DropCR(input)], false)
      else Scanned([], true)
    else if nl + 1 > cap then Scanned([], true)
    else
      var rest := Scan(input[nl + 1..], cap);
      Scanned([DropCR(input[..nl])] + rest.lines, rest.tooLong)
  }

  // ---------------------------------------------------------------- dispatching

  /** A call of the session's Handler. */
  datatype Call =
    | OnVersion(version: string)
    | OnLine(fileID: string, content: string, byteLen: nat)
    | OnFileError(fileID: string, token: string)

  function CallFor(line: string): seq<Call> {
    var ev := ParseLine(line);
    match ev
    case Version(v) => [OnVersion(v)]
    case Content(id, content) => [OnLine(id, content, SourceByteLen(ev))]
    case FileError(id, token) => [OnFileError(id, token)]
    case Unknown => []
  }

  function CallsFor(lines: seq<string>): seq<Call> {
    if lines == [] then [] else CallFor(lines[0]) + CallsFor(lines[1..])
  }

  /** The handler calls a stream amounts to, and whether scanning it failed. */
  function Outcome(input: string, cap: nat): (seq<Call>, bool) {
    var scanned := Scan(input, cap);
    (CallsFor(scanned.lines), scanned.tooLong)
  }

  lemma {:induction false} ScanStep(rest: string, next: string, token: string, cap: nat)
    requires rest != []
    requires var nl := IndexOf(rest, '\n');
             if nl >= 0 then nl + 1 <= cap && token == rest[..nl] && next == rest[nl + 1..]
             else |rest| < cap && token == rest && next == ""
    ensures Outcome(rest, cap).0 == CallFor(DropCR(token)) + Outcome(next, cap).0
    ensures Outcome(rest, cap).1 == Outcome(next, cap).1
  {
    hide CallFor;
    hide DropCR;
    hide IndexOf;
    var tail := Scan(next, cap).lines;
    assert Scan(rest, cap).lines == [DropCR(token)] + tail;
    assert ([DropCR(token)] + tail)[1..] == tail;
  }

  lemma {:induction false} ScanEnds(rest: string, cap: nat)
    requires rest != []
    requires var nl := IndexOf(rest, '\n'); if nl >= 0 then nl + 1 > cap else |rest| >= cap
    ensures Outcome(rest, cap) == ([], true)
  {
  }

  /** scanner.Scan: the next line, unless it does not fit the buffer. */
  method NextLine(rest: string, cap: nat) returns (fits: bool, line: string, next: string)
    requires rest != []
    ensures fits ==> Outcome(rest, cap) == (CallFor(line) + Outcome(next, cap).0, Outcome(next, cap).1)
    ensures fits ==> |next| < |rest|
    ensures !fits ==> Outcome(rest, cap) == ([], true)
  {
    hide Outcome;
    hide CallFor;
    line, next := rest, "";
    var nl := IndexOf(rest, '\n');
    fits := if nl >= 0 then nl + 1 <= cap else |rest| < cap;
    if !fits {
      ScanEnds(rest, cap);
      return;
    }
    if nl >= 0 {
      line, next := rest[..nl], rest[nl + 1..];
    }
    ScanStep(rest, next, line, cap);
    line := DropCR(line);
  }

  /** The scan-and-dispatch loop of runOnce, over everything the stream delivers. */
  method RunOnce(input: string, cap: nat) returns (calls: seq<Call>, scanFailed: bool)
    ensures (calls, scanFailed) == Outcome(input, cap)
  {
    assert Outcome("", cap) == ([], false);
    hide Outcome;
    hide CallFor;
    calls, scanFailed := [], false;
    var rest := input;
    while rest != [] && !scanFailed
      invariant Outcome(input, cap).0 == calls + if scanFailed then [] else Outcome(rest, cap).0
      invariant Outcome(input, cap).1 == (scanFailed || Outcome(rest, cap).1)
      decreases !scanFailed, |rest|
    {
      var fits, line, next := NextLine(rest, cap);
      if fits {
        var call := Dispatch(line);
        assert calls + (call + Outcome(next, cap).0) == calls + call + Outcome(next, cap).0;
        calls, rest := calls + call, next;
      } else {
        scanFailed := true;
      }
    }
    assert calls + [] == calls;
  }

  /** The switch of runOnce: at most one handler call for a line. */
  method Dispatch(line: string) returns (calls: seq<Call>)
    ensures calls == CallFor(line)
  {
    hide ParseLine;
    var ev := ParseLine(line);
    match ev {
      case Version(v) => calls := [OnVersion(v)];
      case Content(id, content) => calls := [OnLine(id, content, SourceByteLen(ev))];
      case FileError(id, token) => calls := [OnFileError(id, token)];
      case Unknown => calls := [];
    }
  }

  // ------------------------------------------- what the bench-side streamer writes

  /** One LF-terminated line of one of the tailed files. */
  datatype FileLine = FileLine(id: string, text: string)

  function Render(lines: seq<FileLine>): string {
    if lines == [] then "" else RenderContent(lines[0].id, lines[0].text) + ['\n'] + Render(lines[1..])
  }

  /** Fit for the stream: an accepted id, no LF, no error marker, and within the line cap. */
  predicate Streamable(l: FileLine, cap: nat) {
    AcceptedID(l.id) && '\n' !in l.text && !Contains(DropCR(l.text), ERROR_INFIX)
    && |RenderContent(l.id, l.text)| + 1 <= cap
  }

  function DeliveredCalls(lines: seq<FileLine>): seq<Call> {
    seq(|lines|, i requires 0 <= i < |lines| =>
      OnLine(lines[i].id, DropCR(lines[i].text), |DropCR(lines[i].text)| + 1))
  }

  lemma {:induction false} DropCRRendered(l: FileLine)
    ensures DropCR(RenderContent(l.id, l.text)) == RenderContent(l.id, DropCR(l.text))
  {
    var s := RenderContent(l.id, l.text);
    if l.text != [] && l.text[|l.text| - 1] == '\r' {
      assert s[..|s| - 1] == RenderContent(l.id, DropCR(l.text));
    } else {
      assert s[|s| - 1] == if l.text == [] then '|' else l.text[|l.text| - 1];
    }
  }

  lemma {:induction false} RenderedLineHasNoLF(l: FileLine)
    requires AcceptedID(l.id) && '\n' !in l.text
    ensures '\n' !in RenderContent(l.id, l.text)
  {
    assert '\n' !in FILE_PREFIX && '\n' !in "|";
  }

  lemma {:induction false} ParsesBack(l: FileLine, cap: nat)
    requires Streamable(l, cap)
    ensures CallFor(DropCR(RenderContent(l.id, l.text))) ==
            [OnLine(l.id, DropCR(l.text), |DropCR(l.text)| + 1)]
  {
    DropCRRendered(l);
    ContentRoundTrip(l.id, DropCR(l.text));
    hide ParseLine;
    hide RenderContent;
  }

  lemma {:induction false} DeliverOne(l: FileLine, tail: string, cap: nat)
    requires Streamable(l, cap)
    ensures var s := RenderContent(l.id, l.text) + ['\n'] + tail;
            && Outcome(s, cap).0 == [OnLine(l.id, DropCR(l.text), |DropCR(l.text)| + 1)] + Outcome(tail, cap).0
            && Outcome(s, cap).1 == Outcome(tail, cap).1
  {
    var head := RenderContent(l.id, l.text);
    RenderedLineHasNoLF(l);
    ParsesBack(l, cap);
    hide CallFor;
    hide Outcome;
    hide RenderContent;
    hide DropCR;
    IndexOfAppend(head, '\n', tail);
    var s := head + ['\n'] + tail;
    assert s[..|head|] == head && s[|head| + 1..] == tail;
    ScanStep(s, tail, head, cap);
  }

  lemma {:induction false} NothingScanned(cap: nat)
    ensures Outcome("", cap) == ([], false)
  {
  }

  lemma {:induction false} DeliveredCons(lines: seq<FileLine>)
    requires lines != []
    ensures DeliveredCalls(lines) ==
            [OnLine(lines[0].id, DropCR(lines[0].text), |DropCR(lines[0].text)| + 1)] + DeliveredCalls(lines[1..])
  {
    hide DropCR;
  }

  /** Scanning and dispatching the stream delivers exactly the rendered lines, in order, each with
      one trailing CR dropped. */
  lemma {:induction false} StreamDelivers(lines: seq<FileLine>, cap: nat)
    requires forall l :: l in lines ==> Streamable(l, cap)
    ensures Outcome(Render(lines), cap) == (DeliveredCalls(lines), false)
  {
    hide Streamable;
    hide Outcome;
    hide RenderContent;
    hide DropCR;
    if lines == [] {
      NothingScanned(cap);
      assert DeliveredCalls(lines) == [];
    } else {
      StreamDelivers(lines[1..], cap);
      DeliverOne(lines[0], Render(lines[1..]), cap);
      DeliveredCons(lines);
    }
  }

  /** The streamer's whole output: a version header, then the lines. */
  lemma {:induction false} StreamWithHeaderDelivers(version: string, lines: seq<FileLine>, cap: nat)
    requires forall l :: l in lines ==> Streamable(l, cap)
    requires '\n' !in version && '\r' !in version && |VERSION_PREFIX + version| + 1 <= cap
    ensures Outcome(VERSION_PREFIX + version + ['\n'] + Render(lines), cap) ==
            ([OnVersion(TrimSpace(version))] + DeliveredCalls(lines), false)
  {
    var head, tail := VERSION_PREFIX + version, Render(lines);
    var s := head + ['\n'] + tail;
    assert '\n' !in VERSION_PREFIX;
    IndexOfAppend(head, '\n', tail);
    assert s[..|head|] == head && s[|head| + 1..] == tail;
    StreamDelivers(lines, cap);
    ScanStep(s, tail, head, cap);
    hide Outcome;
    assert head[|head| - 1] == if version == [] then '=' else version[|version| - 1];
    assert DropCR(head) == head && head[4..] == version;
  }

  // ------------------------------------------------ streams of lines of any kind

  /** A line of the stream: the version, a line of a file, a file's error, or anything else. */
  datatype Sent =
    | SentVersion(version: string)
    | SentLine(id: string, text: string)
    | SentError(id: string, token: string)
    | SentOther(text: string)

  function LineSent(x: Sent): string {
    match x
    case SentVersion(version) => "##V=" + version
    case SentLine(id, text) => "##F=" + id + "|" + text
    case SentError(id, token) => "##F=" + id + " ##E=" + token
    case SentOther(text) => text
  }

  /** What the handler is to be told of it. */
  function CallOfSent(x: Sent): seq<Call> {
    match x
    case SentVersion(version) => [OnVersion(TrimSpace(version))]
    case SentLine(id, text) => [OnLine(id, DropCR(text), |DropCR(text)| + 1)]
    case SentError(id, token) => [OnFileError(id, TrimSpace(token))]
    case SentOther(_) => []
  }

  /** Neither prefix, or the file prefix and then neither a pipe nor the error infix. */
  predicate Unrecognised(line: string) {
    && !HasPrefix(line, "##V=")
    && (HasPrefix(line, "##F=") ==> '|' !in line && !Contains(line[4..], " ##E="))
  }

  predicate Sendable(x: Sent) {
    && '\n' !in LineSent(x)
    && match x
       case SentVersion(_) => true
       case SentLine(id, text) => AcceptedID(id) && !Contains(DropCR(text), " ##E=")
       case SentError(id, _) => AcceptedID(id)
       case SentOther(text) => Unrecognised(DropCR(text))
  }

  lemma {:induction false} DropCRAfter(head: string, text: string)
    requires head != "" && head[|head| - 1] != '\r'
    ensures DropCR(head + text) == head + DropCR(text)
  {
    var s := head + text;
    if text == "" {
      assert s == head;
    } else if text[|text| - 1] == '\r' {
      assert s[..|s| - 1] == head + text[..|text| - 1];
    }
  }

  lemma {:induction false} TrimDropCR(s: string)
    ensures TrimSpace(DropCR(s)) == TrimSpace(s)
  {
    hide TrimSpace;
    var a, b := TrimSpaceTrims(s);
    var t := TrimSpace(s);
    if s != "" && s[|s| - 1] == '\r' {
      if b != "" {
        assert DropCR(s) == a + t + b[..|b| - 1];
        TrimSpaceOf(a, t, b[..|b| - 1]);
      } else {
        assert t == "";
        assert DropCR(s) == a[..|a| - 1] + t + "";
        TrimSpaceOf(a[..|a| - 1], t, "");
      }
    }
  }

  lemma {:induction false} UnrecognisedIsUnknown(line: string)
    requires Unrecognised(line)
    ensures ParseLine(line) == Unknown
  {
    if HasPrefix(line, FILE_PREFIX) {
      assert forall c :: c in line[4..] ==> c in line;
    }
  }

  lemma {:induction false} ErrorCall(id: string, token: string)
    requires AcceptedID(id)
    ensures CallFor(DropCR(RenderError(id, token))) == [OnFileError(id, TrimSpace(token))]
  {
    hide ParseLine;
    hide TrimSpace;
    hide AcceptedID;
    assert RenderError(id, token) == FILE_PREFIX + id + ERROR_INFIX + token;
    DropCRAfter(FILE_PREFIX + id + ERROR_INFIX, token);
    ErrorRoundTrip(id, DropCR(token));
    TrimDropCR(token);
  }

  lemma {:induction false} VersionCall(version: string)
    ensures CallFor(DropCR(VERSION_PREFIX + version)) == [OnVersion(TrimSpace(version))]
  {
    DropCRAfter(VERSION_PREFIX, version);
    TrimDropCR(version);
    hide TrimSpace;
    hide DropCR;
    var line := VERSION_PREFIX + DropCR(version);
    assert line[..4] == VERSION_PREFIX && line[4..] == DropCR(version);
  }

  lemma {:induction false} LineCall(id: string, text: string)
    requires AcceptedID(id) && !Contains(DropCR(text), ERROR_INFIX)
    ensures CallFor(DropCR(RenderContent(id, text))) == [OnLine(id, DropCR(text), |DropCR(text)| + 1)]
  {
    DropCRRendered(FileLine(id, text));
    ContentRoundTrip(id, DropCR(text));
    hide ParseLine;
    hide RenderContent;
  }

  lemma {:induction false} CallOfLine(x: Sent)
    requires Sendable(x)
    ensures CallFor(DropCR(LineSent(x))) == CallOfSent(x)
  {
    hide ParseLine;
    hide TrimSpace;
    hide DropCR;
    hide Contains;
    hide AcceptedID;
    match x
    case SentVersion(version) => VersionCall(version);
    case SentLine(id, text) => LineCall(id, text);
    case SentError(id, token) => ErrorCall(id, token);
    case SentOther(text) => UnrecognisedIsUnknown(DropCR(text));
  }

  function RenderSent(xs: seq<Sent>): string {
    if xs == [] then "" else LineSent(xs[0]) + ['\n'] + RenderSent(xs[1..])
  }

  function CallsSent(xs: seq<Sent>): seq<Call> {
    if xs == [] then [] else CallOfSent(xs[0]) + CallsSent(xs[1..])
  }

  predicate AllSendable(xs: seq<Sent>, cap: nat) {
    forall x :: x in xs ==> Sendable(x) && |LineSent(x)| + 1 <= cap
  }

  lemma {:induction false} OneSent(x: Sent, rest: string, cap: nat)
    requires Sendable(x) && |LineSent(x)| + 1 <= cap
    ensures Outcome(LineSent(x) + ['\n'] + rest, cap) == (CallOfSent(x) + Outcome(rest, cap).0, Outcome(rest, cap).1)
  {
    CallOfLine(x);
    hide CallFor;
    hide Outcome;
    hide DropCR;
    hide LineSent;
    hide CallOfSent;
    var head := LineSent(x);
    IndexOfAppend(head, '\n', rest);
    var s := head + ['\n'] + rest;
    assert s[..|head|] == head && s[|head| + 1..] == rest;
    ScanStep(s, rest, head, cap);
  }

  /** However lines of all kinds are mixed, each has its own call, in its place, and then the rest of the
      stream has its calls. */
  lemma {:induction false} StreamCallsEach(xs: seq<Sent>, rest: string, cap: nat)
    requires AllSendable(xs, cap)
    ensures Outcome(RenderSent(xs) + rest, cap) == (CallsSent(xs) + Outcome(rest, cap).0, Outcome(rest, cap).1)
  {
    hide Sendable;
    hide Outcome;
    hide LineSent;
    hide CallOfSent;
    if xs == [] {
      assert RenderSent(xs) + rest == rest;
      assert CallsSent(xs) + Outcome(rest, cap).0 == Outcome(rest, cap).0;
    } else {
      var more := RenderSent(xs[1..]) + rest;
      StreamCallsEach(xs[1..], rest, cap);
      OneSent(xs[0], more, cap);
      SentCons(xs, rest);
      assert CallOfSent(xs[0]) + (CallsSent(xs[1..]) + Outcome(rest, cap).0) == CallsSent(xs) + Outcome(rest, cap).0;
    }
  }

  lemma {:induction false} SentCons(xs: seq<Sent>, rest: string)
    requires xs != []
    ensures RenderSent(xs) + rest == LineSent(xs[0]) + ['\n'] + (RenderSent(xs[1..]) + rest)
  {
    hide LineSent;
    var head, tail := LineSent(xs[0]) + ['\n'], RenderSent(xs[1..]);
    assert RenderSent(xs) == head + tail;
    assert head + tail + rest == head + (tail + rest);
  }

  /** A stream of whole lines calls just for these. */
  lemma {:induction false} WholeLinesCallEach(xs: seq<Sent>, cap: nat)
    requires AllSendable(xs, cap)
    ensures Outcome(RenderSent(xs), cap) == (CallsSent(xs), false)
  {
    StreamCallsEach(xs, "", cap);
    NothingScanned(cap);
    hide Outcome;
    assert RenderSent(xs) + "" == RenderSent(xs);
    assert CallsSent(xs) + [] == CallsSent(xs);
  }

  /** A last line without its LF is delivered as well if it is shorter than the buffer; otherwise, as with
      any line that does not fit, the scan fails after the calls of the lines before. */
  lemma {:induction false} LastLineWithoutLF(xs: seq<Sent>, last: Sent, cap: nat)
    requires AllSendable(xs, cap) && Sendable(last) && LineSent(last) != ""
    ensures Outcome(RenderSent(xs) + LineSent(last), cap) ==
            if |LineSent(last)| < cap then (CallsSent(xs) + CallOfSent(last), false) else (CallsSent(xs), true)
  {
    var line := LineSent(last);
    StreamCallsEach(xs, line, cap);
    CallOfLine(last);
    NothingScanned(cap);
    hide Outcome;
    hide CallFor;
    hide LineSent;
    hide CallOfSent;
    hide DropCR;
    if |line| < cap {
      ScanStep(line, "", line, cap);
      assert CallOfSent(last) + [] == CallOfSent(last);
    } else {
      ScanEnds(line, cap);
      assert CallsSent(xs) + [] == CallsSent(xs);
    }
  }

  lemma {:induction false} LongLineStopsTheScan(xs: seq<Sent>, long: string, rest: string, cap: nat)
    requires AllSendable(xs, cap) && '\n' !in long && |long| + 1 > cap
    ensures Outcome(RenderSent(xs) + (long + ['\n'] + rest), cap) == (CallsSent(xs), true)
  {
    var tail := long + ['\n'] + rest;
    StreamCallsEach(xs, tail, cap);
    IndexOfAppend(long, '\n', rest);
    ScanEnds(tail, cap);
    hide Outcome;
    assert CallsSent(xs) + [] == CallsSent(xs);
  }

  // -------------------------------------------------------- the remote command

  datatype FileSpec = FileSpec(id: string, path: string)

  datatype CommandError = EmptyScriptPath | NoFiles | ForbiddenID(id: string) | ForbiddenPath(path: string)
    | ForbiddenScriptPath
  datatype CommandResult = Command(text: string) | Rejected(error: CommandError)

  predicate AcceptedPath(path: string) {
    forall c :: c in path ==> c !in "',\n"
  }

  function FilesArg(files: seq<FileSpec>): seq<string> {
    seq(|files|, i requires 0 <= i < |files| => files[i].id + [':'] + files[i].path)
  }

  function ResumeArg(files: seq<FileSpec>, resume: map<string, int>): seq<string> {
    if files == [] then []
    else
      var rest := ResumeArg(files[1..], resume);
      var id := files[0].id;
      if id in resume && resume[id] > 0 then [id + [':'] + IntText(resume[id])] + rest else rest
  }

  const BASH := "bash"
  const LC := "-lc"
  const FILES_FLAG := "--files="
  const RESUME_FLAG := "--resume="

  function ArgumentsText(files: seq<FileSpec>, resume: map<string, int>): string {
    var filesFlag, rparts := FILES_FLAG + Join(FilesArg(files), ','), ResumeArg(files, resume);
    if rparts == [] then filesFlag else filesFlag + [' '] + RESUME_FLAG + Join(rparts, ',')
  }

  /** What bash -lc is given to run. */
  function InnerCommand(script: string, files: seq<FileSpec>, resume: map<string, int>): string {
    script + [' '] + ArgumentsText(files, resume)
  }

  predicate AcceptedFile(f: FileSpec) {
    AcceptedID(f.id) && AcceptedPath(f.path)
  }

  /** The refusal names the first file that is not accepted: its id, if that is at fault. */
  ghost predicate NamesFirstOffender(files: seq<FileSpec>, e: CommandError) {
    exists i :: 0 <= i < |files|
      && !AcceptedFile(files[i]) && (forall j :: 0 <= j < i ==> AcceptedFile(files[j]))
      && e == (if !AcceptedID(files[i].id) then ForbiddenID(files[i].id) else ForbiddenPath(files[i].path))
  }

  /** Which refusal an input gets: the first of these that applies. */
  method BuildRemoteCommand(script: string, files: seq<FileSpec>, resume: map<string, int>) returns (r: CommandResult)
    ensures r.Command? <==>
            (script != "" && files != [] && AcceptedPath(script)
             && forall f :: f in files ==> AcceptedID(f.id) && AcceptedPath(f.path))
    ensures r.Command? ==> r.text == BASH + [' '] + LC + [' '] + "'" + InnerCommand(script, files, resume) + "'"
    ensures script == "" ==> r == Rejected(EmptyScriptPath)
    ensures script != "" && files == [] ==> r == Rejected(NoFiles)
    ensures script != "" && (exists f :: f in files && !AcceptedFile(f)) ==> r.Rejected? && NamesFirstOffender(files, r.error)
    ensures script != "" && files != [] && (forall f :: f in files ==> AcceptedFile(f)) && !AcceptedPath(script) ==>
              r == Rejected(ForbiddenScriptPath)
  {
    if script == "" {
      return Rejected(EmptyScriptPath);
    }
    if files == [] {
      return Rejected(NoFiles);
    }
    var bad := FirstForbidden(files);
    if bad.Some? {
      return Rejected(bad.value);
    }
    if exists c :: c in script && c in "',\n" {
      return Rejected(ForbiddenScriptPath);
    }
    var args := Arguments(files, resume);
    r := Command(BASH + [' '] + LC + [' '] + "'" + (script + [' '] + args) + "'");
    assert script + [' '] + args == InnerCommand(script, files, resume);
  }

  /** The check of the ids and paths, in the files' order. */
  method FirstForbidden(files: seq<FileSpec>) returns (r: Option<CommandError>)
    ensures r.None? <==> forall f :: f in files ==> AcceptedFile(f)
    ensures r.Some? ==> NamesFirstOffender(files, r.value)
  {
    for i := 0 to |files|
      invariant forall j :: 0 <= j < i ==> AcceptedFile(files[j])
    {
      assert files[i] in files;
      if exists c :: c in files[i].id && c in "',=:|\n" {
        return Some(ForbiddenID(files[i].id));
      }
      if exists c :: c in files[i].path && c in "',\n" {
        return Some(ForbiddenPath(files[i].path));
      }
    }
    r := None;
  }

  /** The --files and --resume arguments. */
  method Arguments(files: seq<FileSpec>, resume: map<string, int>) returns (args: string)
    ensures args == ArgumentsText(files, resume)
  {
    hide IntText;
    hide Join;
    var fileParts, rparts := [], [];
    for i := 0 to |files|
      invariant fileParts == FilesArg(files[..i])
    {
      fileParts := fileParts + [files[i].id + [':'] + files[i].path];
      assert FilesArg(files[..i + 1]) == FilesArg(files[..i]) + [files[i].id + [':'] + files[i].path];
    }
    assert files[..|files|] == files;
    for i := 0 to |files|
      invariant rparts + ResumeArg(files[i..], resume) == ResumeArg(files, resume)
    {
      var id := files[i].id;
      assert files[i..][1..] == files[i + 1..];
      if id in resume && resume[id] > 0 {
        rparts := rparts + [id + [':'] + IntText(resume[id])];
      }
    }
    assert rparts + [] == rparts;
    args := FILES_FLAG + Join(fileParts, ',');
    if rparts != [] {
      args := args + [' '] + RESUME_FLAG + Join(rparts, ',');
    }
  }

  /** Reading one `id:rest` item back: the split at its first colon. */
  function SplitItem(item: string): (string, string) {
    var colon := IndexOf(item, ':');
    if colon < 0 then (item, "") else (item[..colon], item[colon + 1..])
  }

  function SplitItems(items: seq<string>): seq<(string, string)> {
    seq(|items|, i requires 0 <= i < |items| => SplitItem(items[i]))
  }

  lemma {:induction false} ItemRoundTrip(id: string, rest: string)
    requires ':' !in id
    ensures SplitItem(id + [':'] + rest) == (id, rest)
  {
    IndexOfAppend(id, ':', rest);
    var item := id + [':'] + rest;
    assert item[..|id|] == id && item[|id| + 1..] == rest;
  }

  /** Splitting the accepted --files value on commas, and each item at its first colon, gives back
      the configured pairs, colons in paths included. */
  lemma {:induction false} FilesArgRoundTrip(files: seq<FileSpec>)
    requires files != [] && forall f :: f in files ==> AcceptedID(f.id) && AcceptedPath(f.path)
    ensures SplitItems(Split(Join(FilesArg(files), ','), ',')) ==
            seq(|files|, i requires 0 <= i < |files| => (files[i].id, files[i].path))
  {
    var items := FilesArg(files);
    forall i | 0 <= i < |items| ensures ',' !in items[i] && SplitItem(items[i]) == (files[i].id, files[i].path) {
      assert files[i] in files;
      ItemRoundTrip(files[i].id, files[i].path);
      assert ',' !in files[i].id && ',' !in files[i].path;
    }
    SplitJoin(items, ',');
  }

  /** The (id, offset) pairs a resume map gives the listed files: the positive offsets, in order. */
  function Positive(files: seq<FileSpec>, resume: map<string, int>): seq<(string, int)> {
    if files == [] then []
    else
      var id := files[0].id;
      (if id in resume && resume[id] > 0 then [(id, resume[id])] else []) + Positive(files[1..], resume)
  }

  lemma {:induction false} ResumeItems(files: seq<FileSpec>, resume: map<string, int>)
    requires forall f :: f in files ==> AcceptedID(f.id)
    ensures var items, pairs := ResumeArg(files, resume), Positive(files, resume);
            && |items| == |pairs|
            && forall i :: 0 <= i < |items| ==>
                 && ',' !in items[i]
                 && SplitItem(items[i]) == (pairs[i].0, IntText(pairs[i].1))
  {
    if files != [] {
      assert files[0] in files && forall f :: f in files[1..] ==> f in files;
      ResumeItems(files[1..], resume);
      var id := files[0].id;
      if id in resume && resume[id] > 0 {
        ItemRoundTrip(id, IntText(resume[id]));
        IntTextChars(resume[id]);
        assert ',' !in id && ',' !in IntText(resume[id]);
        assert ResumeArg(files, resume) == [id + [':'] + IntText(resume[id])] + ResumeArg(files[1..], resume);
      } else {
        assert Positive(files, resume) == Positive(files[1..], resume);
      }
    }
  }

  /** The --resume value splits back to exactly the positive offsets; it is absent when there are
      none. */
  lemma {:induction false} ResumeArgRoundTrip(files: seq<FileSpec>, resume: map<string, int>)
    requires forall f :: f in files ==> AcceptedID(f.id)
    requires forall id :: id in resume ==> resume[id] <= INT64_MAX
    ensures ResumeArg(files, resume) == [] <==> Positive(files, resume) == []
    ensures ResumeArg(files, resume) != [] ==>
              var items := SplitItems(Split(Join(ResumeArg(files, resume), ','), ','));
              && |items| == |Positive(files, resume)|
              && forall i :: 0 <= i < |items| ==>
                   && items[i].0 == Positive(files, resume)[i].0
                   && ParseInt64(items[i].1) == Some(Positive(files, resume)[i].1)
  {
    ResumeItems(files, resume);
    var items, pairs := ResumeArg(files, resume), Positive(files, resume);
    if items != [] {
      SplitJoin(items, ',');
      forall i | 0 <= i < |pairs| ensures ParseInt64(IntText(pairs[i].1)) == Some(pairs[i].1) {
        PositiveFromResume(files, resume, i);
        ParseIntText(pairs[i].1);
      }
    }
  }

  lemma {:induction false} PositiveFromResume(files: seq<FileSpec>, resume: map<string, int>, i: nat)
    requires i < |Positive(files, resume)|
    ensures var (id, off) := Positive(files, resume)[i];
            id in resume && resume[id] == off && off > 0
  {
    var id := files[0].id;
    var n := if id in resume && resume[id] > 0 then 1 else 0;
    if i >= n {
      PositiveFromResume(files[1..], resume, i - n);
    }
  }

  lemma {:induction false} JoinFreeOf(parts: seq<string>, sep: char, c: char)
    requires c != sep && forall p :: p in parts ==> c !in p
    ensures c !in Join(parts, sep)
  {
    if |parts| == 1 {
      assert parts[0] in parts;
    } else if |parts| > 1 {
      assert parts[0] in parts && forall p :: p in parts[1..] ==> p in parts;
      JoinFreeOf(parts[1..], sep, c);
    }
  }

  lemma {:induction false} EscapeNothing(s: string)
    requires '\'' !in s
    ensures EscapeQuotes(s) == s
  {
    if s != [] {
      assert s[0] in s && forall c :: c in s[1..] ==> c in s;
      EscapeNothing(s[1..]);
      assert s == [s[0]] + s[1..];
    }
  }

  lemma {:induction false} InnerHasNoQuote(script: string, files: seq<FileSpec>, resume: map<string, int>)
    requires AcceptedPath(script) && forall f :: f in files ==> AcceptedID(f.id) && AcceptedPath(f.path)
    ensures '\'' !in InnerCommand(script, files, resume)
  {
    forall p | p in FilesArg(files) ensures '\'' !in p {
      var i :| 0 <= i < |files| && p == files[i].id + [':'] + files[i].path;
      assert files[i] in files;
      assert '\'' !in files[i].id && '\'' !in files[i].path;
    }
    JoinFreeOf(FilesArg(files), ',', '\'');
    ResumeItems(files, resume);
    forall p | p in ResumeArg(files, resume) ensures '\'' !in p {
      ResumeFreeOfQuotes(files, resume, p);
    }
    JoinFreeOf(ResumeArg(files, resume), ',', '\'');
    assert '\'' !in FILES_FLAG && '\'' !in RESUME_FLAG && '\'' !in script;
  }

  lemma {:induction false} ResumeFreeOfQuotes(files: seq<FileSpec>, resume: map<string, int>, p: string)
    requires forall f :: f in files ==> AcceptedID(f.id)
    requires p in ResumeArg(files, resume)
    ensures '\'' !in p
  {
    assert files[0] in files && forall f :: f in files[1..] ==> f in files;
    var id := files[0].id;
    if id in resume && resume[id] > 0 && p == id + [':'] + IntText(resume[id]) {
      IntTextChars(resume[id]);
      assert '\'' !in id && '\'' !in IntText(resume[id]);
    } else {
      ResumeFreeOfQuotes(files[1..], resume, p);
    }
  }

  /** The whole command is three shell words, bash, -lc and the inner command, whose every byte
      the outer shell leaves alone. */
  lemma {:induction false} RemoteCommandIsThreeWords(script: string, files: seq<FileSpec>, resume: map<string, int>)
    requires AcceptedPath(script) && forall f :: f in files ==> AcceptedID(f.id) && AcceptedPath(f.path)
    ensures var inner := InnerCommand(script, files, resume);
            Lex(BASH + [' '] + LC + [' '] + "'" + inner + "'") ==
            Some([Marked("bash", false), Marked("-lc", false), Marked(inner, true)])
  {
    hide Lex;
    hide InnerCommand;
    hide Ordinary;
    hide EscapeQuotes;
    var inner := InnerCommand(script, files, resume);
    InnerHasNoQuote(script, files, resume);
    BashIsOrdinary();
    TwoBareWordsThenQuoted(BASH, LC, inner);
    QuotedAsIs(inner);
    assert BASH + [' '] + LC + [' '] + ShellQuote(inner) == BASH + [' '] + LC + [' '] + "'" + inner + "'";
  }

  lemma {:induction false} QuotedAsIs(s: string)
    requires '\'' !in s
    ensures ShellQuote(s) == "'" + s + "'"
  {
    EscapeNothing(s);
  }

  lemma {:induction false} BashIsOrdinary()
    ensures forall c :: c in BASH || c in LC ==> Ordinary(c)
  {
    assert forall c :: PathByte(c) ==> Ordinary(c);
    hide Ordinary;
    assert forall c :: c in BASH || c in LC ==> PathByte(c);
  }

  predicate Bare(s: string) {
    s != "" && forall c :: c in s ==> Ordinary(c)
  }

  function Words(ws: seq<string>): seq<Word> {
    seq(|ws|, i requires 0 <= i < |ws| => Marked(ws[i], false))
  }

  lemma {:induction false} BareWords(before: seq<Word>, ws: seq<string>)
    requires ws != [] && forall w :: w in ws ==> Bare(w)
    ensures var last := |ws| - 1;
            Run(Lexing(before, None, Plain), Join(ws, ' ')) ==
            Lexing(before + Words(ws[..last]), Some(Marked(ws[last], false)), Plain)
    decreases |ws|
  {
    hide Run;
    hide Ordinary;
    hide Marked;
    assert ws[0] in ws;
    RunBareWord(before, ws[0]);
    if |ws| == 1 {
      assert before + Words(ws[..0]) == before;
    } else {
      var rest, last := ws[1..], |ws| - 1;
      assert forall w :: w in rest ==> w in ws;
      var next := before + [Marked(ws[0], false)];
      BareWords(next, rest);
      RunAppend(Lexing(before, None, Plain), ws[0] + " ", Join(rest, ' '));
      assert Join(ws, ' ') == ws[0] + " " + Join(rest, ' ');
      assert next + Words(rest[..last - 1]) == before + Words(ws[..last]);
      assert rest[last - 1] == ws[last];
    }
  }

  /** Where no byte is special to it, the inner shell runs the script with the --files argument and, if any
      offset is positive, the --resume argument after it. */
  lemma {:induction false} InnerShellRunsTheScript(script: string, files: seq<FileSpec>, resume: map<string, int>)
    requires Bare(script) && Bare(Join(FilesArg(files), ','))
    requires ResumeArg(files, resume) == [] || Bare(Join(ResumeArg(files, resume), ','))
    ensures var filesWord, offsets := "--files=" + Join(FilesArg(files), ','), ResumeArg(files, resume);
            Lex(InnerCommand(script, files, resume)) ==
            Some(if offsets == [] then Words([script, filesWord])
                 else Words([script, filesWord, "--resume=" + Join(offsets, ',')]))
  {
    FlagsAreBare();
    hide Ordinary;
    hide Run;
    hide Join;
    var filesWord, offsets := FILES_FLAG + Join(FilesArg(files), ','), ResumeArg(files, resume);
    if offsets == [] {
      var ws := [script, filesWord];
      TwoJoined(script, filesWord);
      BareWords([], ws);
      assert [] + Words(ws[..1]) + [Marked(ws[1], false)] == Words(ws);
    } else {
      var resumeWord := RESUME_FLAG + Join(offsets, ',');
      var ws := [script, filesWord, resumeWord];
      ThreeJoined(script, filesWord, resumeWord);
      assert InnerCommand(script, files, resume) == Join(ws, ' ');
      BareWords([], ws);
      assert [] + Words(ws[..2]) + [Marked(ws[2], false)] == Words(ws);
    }
  }

  lemma {:induction false} FlagsAreBare()
    ensures forall c :: c in FILES_FLAG || c in RESUME_FLAG ==> Ordinary(c)
  {
    assert forall c :: PathByte(c) ==> Ordinary(c);
    hide Ordinary;
    assert forall c :: c in FILES_FLAG || c in RESUME_FLAG ==> PathByte(c);
  }

  lemma {:induction false} TwoJoined(a: string, b: string)
    ensures Join([a, b], ' ') == a + [' '] + b
  {
    assert [a, b][1..] == [b];
  }

  lemma {:induction false} ThreeJoined(a: string, b: string, c: string)
    ensures Join([a, b, c], ' ') == a + [' '] + (b + [' '] + c)
  {
    assert [a, b, c][1..] == [b, c];
    TwoJoined(b, c);
  }
}
