/** The line protocol of the bench-side streamer (internal/streamer/protocol.go). */
module StreamProtocol {
  import opened Text

  datatype Event =
    | Unknown
    | Version(version: string)
    | Content(fileID: string, content: string)
    | FileError(fileID: string, token: string)

  const VERSION_PREFIX := "##V="
  const FILE_PREFIX := "##F="
  const ERROR_INFIX := " ##E="

  /** Bytes the line takes in the source file: its content and the LF. */
  function SourceByteLen(e: Event): nat {
    if e.Content? then |e.content| + 1 else 0
  }

  function ParseLine(line: string): Event {
    if line == "" then Unknown
    else if HasPrefix(line, VERSION_PREFIX) then Version(TrimSpace(line[4..]))
    else if !HasPrefix(line, FILE_PREFIX) then Unknown
    else ParseFileLine(line[4..])
  }

  function ParseFileLine(rest: string): Event {
    var err := Find(rest, ERROR_INFIX);
    if err >= 0 then FileError(rest[..err], TrimSpace(rest[err + 5..]))
    else
      var pipe := IndexOf(rest, '|');
      if pipe < 0 then Unknown else Content(rest[..pipe], rest[pipe + 1..])
  }

  /** The file ids BuildRemoteCommand lets through. */
  predicate AcceptedID(id: string) {
    forall c :: c in id ==> c !in "',=:|\n"
  }

  function RenderContent(id: string, content: string): string {
    FILE_PREFIX + id + "|" + content
  }

  function RenderError(id: string, token: string): string {
    FILE_PREFIX + id + ERROR_INFIX + token
  }

  lemma {:induction false} FindUnique(s: string, sub: string, at: nat)
    requires at <= |s| && HasPrefix(s[at..], sub)
    requires forall j :: 0 <= j < at ==> !HasPrefix(s[j..], sub)
    ensures Find(s, sub) == at
  {
  }

  /** An occurrence of the error infix puts '=' four bytes further on. */
  lemma {:induction false} InfixHasEquals(s: string, j: nat)
    requires j <= |s| && HasPrefix(s[j..], ERROR_INFIX)
    ensures j + 4 < |s| && s[j + 4] == '='
    ensures forall i :: j <= i <= j + 4 ==> s[i] != '|'
  {
    assert forall i :: 0 <= i < 5 ==> s[j + i] == s[j..][..5][i] == ERROR_INFIX[i];
  }

  lemma {:induction false} FilePrefixStripped(rest: string)
    ensures ParseLine(FILE_PREFIX + rest) == ParseFileLine(rest)
  {
    var line := FILE_PREFIX + rest;
    assert line[..4] == FILE_PREFIX && line[4..] == rest;
    assert line[..4][2] != VERSION_PREFIX[2];
  }

  lemma {:induction false} InfixLiesInContent(id: string, content: string, j: nat)
    requires AcceptedID(id)
    ensures var rest := id + "|" + content;
            j <= |rest| && HasPrefix(rest[j..], ERROR_INFIX) <==>
            |id| < j <= |rest| && HasPrefix(content[j - |id| - 1..], ERROR_INFIX)
  {
    var rest := id + "|" + content;
    assert forall i :: 0 <= i < |id| ==> rest[i] in id;
    if j <= |rest| && HasPrefix(rest[j..], ERROR_INFIX) {
      InfixHasEquals(rest, j);
      assert rest[|id|] == '|';
      assert rest[j..] == content[j - |id| - 1..];
    }
    if |id| < j <= |rest| {
      assert rest[j..] == content[j - |id| - 1..];
    }
  }

  /** A content line parses back to its id and content, pipes and all, exactly when the content
      is free of the error infix. */
  lemma {:induction false} ContentRoundTrip(id: string, content: string)
    requires AcceptedID(id)
    ensures ParseLine(RenderContent(id, content)) == Content(id, content) <==> !Contains(content, ERROR_INFIX)
    ensures Contains(content, ERROR_INFIX) ==> ParseLine(RenderContent(id, content)).FileError?
  {
    hide ParseLine;
    hide TrimSpace;
    hide Find;
    hide HasPrefix;
    hide IndexOf;
    var rest := id + "|" + content;
    assert RenderContent(id, content) == FILE_PREFIX + rest;
    FilePrefixStripped(rest);
    InfixSurvives(id, content);
    if !Contains(content, ERROR_INFIX) {
      assert '|' !in id;
      IndexOfAppend(id, '|', content);
      assert rest[..|id|] == id && rest[|id| + 1..] == content;
    }
  }

  lemma {:induction false} InfixSurvives(id: string, content: string)
    requires AcceptedID(id)
    ensures Contains(id + "|" + content, ERROR_INFIX) <==> Contains(content, ERROR_INFIX)
  {
    hide Find;
    hide HasPrefix;
    hide AcceptedID;
    var j := Find(id + "|" + content, ERROR_INFIX);
    var k := Find(content, ERROR_INFIX);
    if j >= 0 {
      InfixLiesInContent(id, content, j);
    }
    if k >= 0 {
      InfixLiesInContent(id, content, |id| + 1 + k);
      assert content[|id| + 1 + k - |id| - 1..] == content[k..];
    }
  }

  lemma {:induction false} NoInfixBefore(id: string, token: string, j: nat)
    requires AcceptedID(id) && j < |id|
    ensures !HasPrefix((id + ERROR_INFIX + token)[j..], ERROR_INFIX)
  {
    var rest := id + ERROR_INFIX + token;
    assert forall i :: 0 <= i < |id| ==> rest[i] in id;
    assert rest[|id|] == ' ' && rest[|id| + 1] == '#' && rest[|id| + 2] == '#' && rest[|id| + 3] == 'E';
    if HasPrefix(rest[j..], ERROR_INFIX) {
      InfixHasEquals(rest, j);
      assert false;
    }
  }

  /** An error line parses back to its id and its token, up to white space around the token. */
  lemma {:induction false} ErrorRoundTrip(id: string, token: string)
    requires AcceptedID(id)
    ensures ParseLine(RenderError(id, token)) == FileError(id, TrimSpace(token))
  {
    hide ParseLine;
    hide TrimSpace;
    hide Find;
    hide HasPrefix;
    hide AcceptedID;
    var rest := id + ERROR_INFIX + token;
    assert RenderError(id, token) == FILE_PREFIX + rest;
    FilePrefixStripped(rest);
    InfixAfter(id, token);
    forall j | 0 <= j < |id| ensures !HasPrefix(rest[j..], ERROR_INFIX) {
      NoInfixBefore(id, token, j);
    }
    FindUnique(rest, ERROR_INFIX, |id|);
    assert rest[..|id|] == id && rest[|id| + 5..] == token;
  }

  lemma {:induction false} InfixAfter(id: string, token: string)
    ensures HasPrefix((id + ERROR_INFIX + token)[|id|..], ERROR_INFIX)
  {
    var rest := id + ERROR_INFIX + token;
    assert rest[|id|..] == ERROR_INFIX + token;
    assert (ERROR_INFIX + token)[..5] == ERROR_INFIX;
  }

  lemma {:induction false} VersionRoundTrip(v: string)
    requires TrimSpace(v) == v
    ensures ParseLine(VERSION_PREFIX + v) == Version(v)
  {
    assert (VERSION_PREFIX + v)[4..] == v;
  }
}
