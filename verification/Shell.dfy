/** Single-quote escaping of text put on a remote command line (internal/collector/logtail.go and
    pipeline.go), against a lexer for the quoting rules of the POSIX.1-2017 Shell Command Language
    (XCU chapter 2, sections 2.2.1 and 2.2.2). */
module Shell {
  import opened Text

  /** One byte of a word, and whether quoting protects it from expansion. */
  datatype Mark = Mark(c: char, quoted: bool)
  type Word = seq<Mark>

  datatype Mode = Plain | AfterBackslash | InSingle

  /** Bad: double quotes, back-quotes and comments are outside this lexer. */
  datatype Lexer = Lexing(words: seq<Word>, current: Option<Word>, mode: Mode) | Bad

  predicate IsOperator(c: char) { c in "|&;<>()\n" }
  predicate IsBlank(c: char) { c == ' ' || c == '\t' }
  predicate Ordinary(c: char) { !IsOperator(c) && !IsBlank(c) && c !in "'\\\"`#" }

  function Grow(l: Lexer, m: Mark): (r: Lexer)
    requires l.Lexing?
    ensures r.Lexing?
  {
    l.(current := Some((if l.current.Some? then l.current.value else []) + [m]))
  }

  function EndWord(l: Lexer): Lexer
    requires l.Lexing?
  {
    if l.current.Some? then l.(words := l.words + [l.current.value], current := None) else l
  }

  function Step(l: Lexer, c: char): Lexer {
    if l.Bad? then Bad
    else
      match l.mode
      case InSingle => if c == '\'' then l.(mode := Plain) else Grow(l, Mark(c, true))
      case AfterBackslash =>
        // section 2.2.1: an escaped newline is a line continuation, removed altogether
        if c == '\n' then l.(mode := Plain) else Grow(l.(mode := Plain), Mark(c, true))
      case Plain =>
        if c == '\'' then
          l.(current := Some(if l.current.Some? then l.current.value else []), mode := InSingle)
        else if c == '\\' then l.(mode := AfterBackslash)
        else if IsBlank(c) then EndWord(l)
        else if IsOperator(c) then
          var ended := EndWord(l);
          ended.(words := ended.words + [[Mark(c, false)]])
        else if c == '"' || c == '`' || (c == '#' && l.current.None?) then Bad
        else Grow(l, Mark(c, false))
  }

  function Run(l: Lexer, s: string): Lexer
    decreases |s|
  {
    if s == [] then l else Run(Step(l, s[0]), s[1..])
  }

  const BEGIN := Lexing([], None, Plain)

  /** The words of a command line, None when a quote is left open or the lexer does not apply. */
  function Lex(s: string): Option<seq<Word>> {
    var l := Run(BEGIN, s);
    if l.Bad? || l.mode != Plain then None else Some(EndWord(l).words)
  }

  function Marked(s: string, quoted: bool): Word {
    seq(|s|, i requires 0 <= i < |s| => Mark(s[i], quoted))
  }

  /** strings.ReplaceAll(s, "'", `'\''`). */
  function EscapeQuotes(s: string): string {
    if s == [] then "" else (if s[0] == '\'' then "'\\''" else [s[0]]) + EscapeQuotes(s[1..])
  }

  function ShellQuote(s: string): string {
    "'" + EscapeQuotes(s) + "'"
  }

  lemma {:induction false} RunAppend(l: Lexer, a: string, b: string)
    ensures Run(l, a + b) == Run(Run(l, a), b)
    decreases |a|
  {
    if a == [] {
      assert a + b == b;
    } else {
      assert (a + b)[1..] == a[1..] + b;
      RunAppend(Step(l, a[0]), a[1..], b);
    }
  }

  lemma {:induction false} RunOne(l: Lexer, c: char)
    ensures Run(l, [c]) == Step(l, c)
  {
    assert Run(l, [c]) == Run(Step(l, c), []);
  }

  lemma {:induction false} RunQuote(l: Lexer)
    ensures Run(l, "'\\''") == Step(Step(Step(Step(l, '\''), '\\'), '\''), '\'')
  {
    assert "'\\''"[1..] == "\\''" && "\\''"[1..] == "''" && "''"[1..] == "'" && "'"[1..] == "";
    var l2 := Step(Step(l, '\''), '\\');
    assert Run(l2, "''") == Run(Step(l2, '\''), "'") == Run(Step(Step(l2, '\''), '\''), "");
    assert Run(Step(Step(l, '\''), '\\'), "''") == Step(Step(Step(Step(l, '\''), '\\'), '\''), '\'');
  }

  lemma {:induction false} RunEscaped(words: seq<Word>, w: Word, s: string)
    ensures Run(Lexing(words, Some(w), InSingle), EscapeQuotes(s)) == Lexing(words, Some(w + Marked(s, true)), InSingle)
    decreases |s|
  {
    var l := Lexing(words, Some(w), InSingle);
    if s == [] {
      assert w + Marked(s, true) == w;
    } else {
      var head := if s[0] == '\'' then "'\\''" else [s[0]];
      var w' := w + [Mark(s[0], true)];
      RunAppend(l, head, EscapeQuotes(s[1..]));
      if s[0] == '\'' {
        RunQuote(l);
      } else {
        RunOne(l, s[0]);
      }
      assert Run(l, head) == Lexing(words, Some(w'), InSingle);
      RunEscaped(words, w', s[1..]);
      assert w' + Marked(s[1..], true) == w + Marked(s, true);
    }
  }

  /** Wherever it stands outside quotes, a quoted string adds exactly its bytes to the current
      word, every one protected from expansion. */
  lemma {:induction false} QuotedInContext(words: seq<Word>, current: Option<Word>, s: string)
    ensures var w := if current.Some? then current.value else [];
            Run(Lexing(words, current, Plain), ShellQuote(s)) == Lexing(words, Some(w + Marked(s, true)), Plain)
  {
    var w := if current.Some? then current.value else [];
    var l := Lexing(words, current, Plain);
    RunAppend(l, "'", EscapeQuotes(s) + "'");
    assert "'" + (EscapeQuotes(s) + "'") == ShellQuote(s);
    RunOne(l, '\'');
    RunAppend(Run(l, "'"), EscapeQuotes(s), "'");
    RunEscaped(words, w, s);
    RunOne(Lexing(words, Some(w + Marked(s, true)), InSingle), '\'');
  }

  /** shellQuote(s) is the one word s, for every s. */
  lemma {:induction false} ShellQuoteIsOneWord(s: string)
    ensures Lex(ShellQuote(s)) == Some([Marked(s, true)])
  {
    QuotedInContext([], None, s);
    assert [] + Marked(s, true) == Marked(s, true);
    assert [] + [Marked(s, true)] == [Marked(s, true)];
  }

  lemma {:induction false} RunOrdinary(words: seq<Word>, w: Word, s: string)
    requires forall c :: c in s ==> Ordinary(c)
    ensures Run(Lexing(words, Some(w), Plain), s) == Lexing(words, Some(w + Marked(s, false)), Plain)
    decreases |s|
  {
    if s == [] {
      assert w + Marked(s, false) == w;
    } else {
      assert forall c :: c in s[1..] ==> c in s;
      assert s[0] in s;
      RunOrdinary(words, w + [Mark(s[0], false)], s[1..]);
      assert w + [Mark(s[0], false)] + Marked(s[1..], false) == w + Marked(s, false);
    }
  }

  /** A bare word of ordinary bytes, begun between words. */
  lemma {:induction false} RunBareWord(words: seq<Word>, s: string)
    requires s != [] && forall c :: c in s ==> Ordinary(c)
    ensures Run(Lexing(words, None, Plain), s) == Lexing(words, Some(Marked(s, false)), Plain)
    ensures Run(Lexing(words, None, Plain), s + " ") == Lexing(words + [Marked(s, false)], None, Plain)
  {
    assert s[0] in s && forall c :: c in s[1..] ==> c in s;
    var w: Word := [Mark(s[0], false)];
    assert [] + w == w;
    assert Step(Lexing(words, None, Plain), s[0]) == Lexing(words, Some(w), Plain);
    RunOrdinary(words, w, s[1..]);
    assert w + Marked(s[1..], false) == Marked(s, false);
    RunAppend(Lexing(words, None, Plain), s, " ");
    RunOne(Lexing(words, Some(Marked(s, false)), Plain), ' ');
  }

  /** Two bare words and a quoted one. */
  lemma {:induction false} TwoBareWordsThenQuoted(a: string, b: string, s: string)
    requires a != [] && (forall c :: c in a ==> Ordinary(c)) && b != [] && (forall c :: c in b ==> Ordinary(c))
    ensures Lex(a + [' '] + b + [' '] + ShellQuote(s)) == Some([Marked(a, false), Marked(b, false), Marked(s, true)])
  {
    hide Run;
    hide EscapeQuotes;
    hide Ordinary;
    var w1, w2, w3 := Marked(a, false), Marked(b, false), Marked(s, true);
    RunBareWord([], a);
    assert [] + [w1] == [w1];
    RunBareWord([w1], b);
    var head := a + [' '] + b + [' '];
    RunAppend(BEGIN, a + [' '], b + [' ']);
    assert a + [' '] + (b + [' ']) == head;
    assert [w1] + [w2] == [w1, w2] && [w1, w2] + [w3] == [w1, w2, w3] && [] + w3 == w3;
    RunAppend(BEGIN, head, ShellQuote(s));
    QuotedInContext([w1, w2], None, s);
  }

  // --------------------------------------------------- the collector's command line

  const COLLECTOR_PATH := "$HOME/.frappe-monitor/" + "frappe-monitor-collect.sh"
  const BENCH_PATHS := "BENCH_PATHS="

  function BuildCollectCmd(benchPaths: seq<string>): string {
    if benchPaths == [] then COLLECTOR_PATH
    else BENCH_PATHS + ShellQuote(Join(benchPaths, ':')) + " " + COLLECTOR_PATH
  }

  predicate PathByte(c: char) {
    'a' <= c <= 'z' || 'A' <= c <= 'Z' || c == '$' || c == '/' || c == '.' || c == '-' || c == '_' || c == '='
  }

  lemma {:induction false} ConstantsAreOrdinary()
    ensures forall c :: c in COLLECTOR_PATH ==> Ordinary(c)
    ensures forall c :: c in BENCH_PATHS ==> Ordinary(c)
  {
    assert forall c :: PathByte(c) ==> Ordinary(c);
    hide Ordinary;
    assert forall c :: c in "$HOME/.frappe-monitor/" ==> PathByte(c);
    assert forall c :: c in "frappe-monitor-collect.sh" ==> PathByte(c);
    assert forall c :: c in BENCH_PATHS ==> PathByte(c);
  }

  /** With paths configured, the shell sees an assignment whose value is the joined list, wholly
      quoted, and then the collector; the value splits back to the list exactly when no path
      contains a colon. */
  lemma {:induction false} CollectCmdCarriesPaths(benchPaths: seq<string>)
    requires benchPaths != []
    ensures var value := Join(benchPaths, ':');
            && Lex(BuildCollectCmd(benchPaths)) ==
               Some([Marked("BENCH_PATHS=", false) + Marked(value, true),
                     Marked("$HOME/.frappe-monitor/" + "frappe-monitor-collect.sh", false)])
            && (Split(value, ':') == benchPaths <==> forall p :: p in benchPaths ==> ':' !in p)
  {
    ConstantsAreOrdinary();
    hide Ordinary;
    hide Run;
    hide EscapeQuotes;
    var value := Join(benchPaths, ':');
    var first := Marked(BENCH_PATHS, false) + Marked(value, true);
    var quoted, tail := ShellQuote(value), " " + COLLECTOR_PATH;
    RunBareWord([], BENCH_PATHS);
    RunAppend(BEGIN, BENCH_PATHS, quoted + tail);
    QuotedInContext([], Some(Marked(BENCH_PATHS, false)), value);
    RunAppend(Lexing([], Some(Marked(BENCH_PATHS, false)), Plain), quoted, tail);
    var l := Lexing([], Some(first), Plain);
    RunAppend(l, " ", COLLECTOR_PATH);
    RunOne(l, ' ');
    assert [] + [first] == [first];
    RunBareWord([first], COLLECTOR_PATH);
    assert BENCH_PATHS + (quoted + tail) == BuildCollectCmd(benchPaths);
    assert [first] + [Marked(COLLECTOR_PATH, false)] == [first, Marked(COLLECTOR_PATH, false)];
    if forall p :: p in benchPaths ==> ':' !in p {
      SplitJoin(benchPaths, ':');
    }
  }

  /** With no path configured the command is the collector alone. */
  lemma {:induction false} CollectCmdWithoutPaths()
    ensures Lex(BuildCollectCmd([])) == Some([Marked("$HOME/.frappe-monitor/" + "frappe-monitor-collect.sh", false)])
  {
    ConstantsAreOrdinary();
    hide Ordinary;
    hide Run;
    RunBareWord([], COLLECTOR_PATH);
    assert [] + [Marked(COLLECTOR_PATH, false)] == [Marked(COLLECTOR_PATH, false)];
  }

  const SET := "set"
  const DASH_E := "-e"
  const F_IS := "f="

  /** The words before the quoted path in the tailer's command: `set -e; f=`. */
  function TailWords(): seq<Word> {
    [Marked(SET, false), Marked(DASH_E, false), [Mark(';', false)]]
  }

  lemma {:induction false} TailConstantsAreOrdinary()
    ensures forall c :: c in SET || c in DASH_E || c in F_IS ==> Ordinary(c)
  {
    assert forall c :: PathByte(c) ==> Ordinary(c);
    hide Ordinary;
    assert forall c :: c in SET || c in DASH_E || c in F_IS ==> PathByte(c);
  }

  lemma {:induction false} FirstTailWord()
    ensures Run(BEGIN, SET + [' ']) == Lexing([Marked(SET, false)], None, Plain)
  {
    TailConstantsAreOrdinary();
    hide Run;
    hide Ordinary;
    RunBareWord([], SET);
    assert [] + [Marked(SET, false)] == [Marked(SET, false)];
  }

  lemma {:induction false} OptionTailWord()
    ensures Run(Lexing([Marked(SET, false)], None, Plain), DASH_E + [';']) == Lexing(TailWords(), None, Plain)
  {
    TailConstantsAreOrdinary();
    hide Run;
    hide Ordinary;
    var w1, w2, w3: Word := Marked(SET, false), Marked(DASH_E, false), [Mark(';', false)];
    RunBareWord([w1], DASH_E);
    RunAppend(Lexing([w1], None, Plain), DASH_E, [';']);
    RunOne(Lexing([w1], Some(w2), Plain), ';');
    assert [w1] + [w2] + [w3] == [w1, w2, w3];
  }

  lemma {:induction false} LastTailWord(words: seq<Word>)
    ensures Run(Lexing(words, None, Plain), [' '] + F_IS) == Lexing(words, Some(Marked(F_IS, false)), Plain)
  {
    TailConstantsAreOrdinary();
    hide Run;
    hide Ordinary;
    RunAppend(Lexing(words, None, Plain), [' '], F_IS);
    RunOne(Lexing(words, None, Plain), ' ');
    RunBareWord(words, F_IS);
  }

  lemma {:induction false} TailPrefix()
    ensures Run(BEGIN, SET + [' '] + DASH_E + [';'] + [' '] + F_IS) ==
            Lexing([Marked(SET, false), Marked(DASH_E, false), [Mark(';', false)]], Some(Marked(F_IS, false)), Plain)
  {
    hide Run;
    FirstTailWord();
    RunAppend(BEGIN, SET + [' '], DASH_E + [';']);
    OptionTailWord();
    RunAppend(BEGIN, SET + [' '] + (DASH_E + [';']), [' '] + F_IS);
    LastTailWord(TailWords());
    assert SET + [' '] + (DASH_E + [';']) + ([' '] + F_IS) == SET + [' '] + DASH_E + [';'] + [' '] + F_IS;
  }

  /** The tailer's command binds the shell variable f to the path, byte for byte, whatever the
      path contains. */
  lemma {:induction false} TailCommandBindsPath(path: string)
    ensures Run(BEGIN, SET + [' '] + DASH_E + [';'] + [' '] + F_IS + ShellQuote(path)) ==
            Lexing([Marked(SET, false), Marked(DASH_E, false), [Mark(';', false)]],
                   Some(Marked(F_IS, false) + Marked(path, true)), Plain)
  {
    TailPrefix();
    RunAppend(BEGIN, SET + [' '] + DASH_E + [';'] + [' '] + F_IS, ShellQuote(path));
    QuotedInContext([Marked(SET, false), Marked(DASH_E, false), [Mark(';', false)]], Some(Marked(F_IS, false)), path);
  }
}
