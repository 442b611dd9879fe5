/**
 * Connecting a harness whose configuration is TOML text: the old section is cut out line by line, the
 * blank lines are tidied and the new section goes to the end. Removing does the first two only.
 */
module ConnectToml {
  import opened Seqs
  import opened Wrappers

  // ---------- lines ----------

  /** The text between line feeds; there is always at least one line. */
  function Lines(s: string): (ls: seq<string>)
    ensures |ls| > 0
  {
    if s == "" then [""]
    else
      var rest := Lines(s[1..]);
      if s[0] == '\n' then [""] + rest else [[s[0]] + rest[0]] + rest[1..]
  }

  function Join(ls: seq<string>): string {
    if ls == [] then ""
    else if |ls| == 1 then ls[0]
    else ls[0] + "\n" + Join(ls[1..])
  }

  predicate EndsInReturn(line: string) {
    line != "" && line[|line| - 1] == '\r'
  }

  function DropReturns(ls: seq<string>): seq<string> {
    seq(|ls|, i requires 0 <= i < |ls| => if EndsInReturn(ls[i]) then ls[i][..|ls[i]| - 1] else ls[i])
  }

  /** Lines as the section cutter sees them: one return goes with each line feed. */
  function Split(s: string): seq<string> {
    var ls := Lines(s);
    DropReturns(ls[..|ls| - 1]) + [ls[|ls| - 1]]
  }

  // ---------- tables ----------

  predicate IsSpace(c: char) {
    || c in {' ', '\t', '\n', '\r'}
    || c as int in {0x0B, 0x0C, 0xA0, 0x1680, 0x2028, 0x2029, 0x202F, 0x205F, 0x3000, 0xFEFF}
    || 0x2000 <= c as int <= 0x200A
  }

  predicate Blank(s: string) {
    forall i | 0 <= i < |s| :: IsSpace(s[i])
  }

  function Until(s: string, c: char): (n: nat)
    ensures n <= |s| && (forall i | 0 <= i < n :: s[i] != c) && (n < |s| ==> s[n] == c)
  {
    if s == "" || s[0] == c then 0 else 1 + Until(s[1..], c)
  }

  /** The name of the table a line opens, if it opens one. */
  function Table(line: string): Option<string> {
    if line == "" || line[0] != '[' then None
    else
      var n := Until(line[1..], ']');
      if 0 < n < |line| - 1 && Blank(line[n + 2..]) then Some(line[1..n + 1]) else None
  }

  predicate Ours(server: string, name: string) {
    name == server || server + "." <= name
  }

  predicate OpensOurs(server: string, line: string) {
    Table(line).Some? && Ours(server, Table(line).value)
  }

  function Skipping(server: string, skipping: bool, line: string): bool {
    if Table(line).Some? then Ours(server, Table(line).value) else skipping
  }

  /** The lines outside our sections, in order. */
  function Keep(server: string, ls: seq<string>, skipping: bool): seq<string> {
    if ls == [] then []
    else
      var now := Skipping(server, skipping, ls[0]);
      (if now then [] else [ls[0]]) + Keep(server, ls[1..], now)
  }

  function Left(server: string, ls: seq<string>, skipping: bool): bool {
    if ls == [] then skipping else Left(server, ls[1..], Skipping(server, skipping, ls[0]))
  }

  // ---------- tidying ----------

  /** Runs of line feeds are cut to two. */
  function Collapse(s: string, run: nat): string {
    if s == "" then ""
    else if s[0] == '\n' then (if run < 2 then "\n" else "") + Collapse(s[1..], run + 1)
    else [s[0]] + Collapse(s[1..], 0)
  }

  function DropLeading(s: string): (r: string)
    ensures r != "" ==> r[0] != '\n'
  {
    if s != "" && s[0] == '\n' then DropLeading(s[1..]) else s
  }

  function DropTrailing(s: string): (r: string)
    ensures r <= s && (r != "" ==> r[|r| - 1] != '\n')
  {
    if s != "" && s[|s| - 1] == '\n' then DropTrailing(s[..|s| - 1]) else s
  }

  function Body(s: string): string {
    DropTrailing(DropLeading(Collapse(s, 0)))
  }

  function Strip(server: string, toml: string): string {
    Body(Join(Keep(server, Split(toml), false))) + "\n"
  }

  /** One line of the cutting loop: what is out and what is to come stay the same in all. */
  lemma KeepStep(server: string, out: seq<string>, lines: seq<string>, i: nat, skipping: bool)
    requires i < |lines|
    ensures var now := Skipping(server, skipping, lines[i]);
            (if now then out else out + [lines[i]]) + Keep(server, lines[i + 1..], now) ==
            out + Keep(server, lines[i..], skipping)
  {
    var now := Skipping(server, skipping, lines[i]);
    assert lines[i..][1..] == lines[i + 1..];
    if now {
      Empty(Keep(server, lines[i + 1..], now));
    } else {
      Assoc(out, [lines[i]], Keep(server, lines[i + 1..], now));
    }
  }

  method StripCodexModelbotSection(server: string, toml: string) returns (text: string)
    ensures text == Strip(server, toml)
  {
    var lines := Split(toml);
    var out, skipping := [], false;
    assert lines[0..] == lines;
    Empty(Keep(server, lines, false));
    for i := 0 to |lines|
      invariant out + Keep(server, lines[i..], skipping) == Keep(server, lines, false)
    {
      var line := lines[i];
      KeepStep(server, out, lines, i, skipping);
      if Table(line).Some? {
        if Ours(server, Table(line).value) {
          skipping := true;
          continue;
        }
        skipping := false;
      }
      if !skipping {
        out := out + [line];
      }
    }
    Empty(out);
    text := DropTrailing(DropLeading(Collapse(Join(out), 0))) + "\n";
  }

  // ---------- merging ----------

  function Quoted(tools: seq<string>): string {
    if tools == [] then ""
    else "\"" + tools[0] + "\"" + (if |tools| == 1 then "" else ", " + Quoted(tools[1..]))
  }

  function Rows(tools: seq<string>): seq<string> {
    if |tools| <= 5 then if tools == [] then [] else ["  " + Quoted(tools)]
    else ["  " + Quoted(tools[..5]) + ","] + Rows(tools[5..])
  }

  const URL := "url = \"http://127.0.0.1:7777/mcp\""
  const TOKEN := "bearer_token_env_var = \"MODELBOT_TOKEN\""
  const STARTUP := "startup_timeout_sec = 30"
  const TIMEOUT := "tool_timeout_sec = 300"
  const ENABLED := "enabled = true"
  const GENERATED := "# generated from src/tools/schemas"
  const WARNING := " — do not hand-edit drift"
  const TOOLS := "enabled_tools = ["
  const APPROVAL := "default_tools_approval_mode = \"prompt\""

  function Settings(tools: seq<string>): seq<string> {
    [URL, TOKEN, STARTUP, TIMEOUT, ENABLED, GENERATED + WARNING, TOOLS] + Rows(tools) + ["]", APPROVAL, ""]
  }

  function SectionLines(server: string, tools: seq<string>): seq<string> {
    ["[" + server + "]"] + Settings(tools)
  }

  function Section(server: string, tools: seq<string>): string {
    Join(SectionLines(server, tools))
  }

  function Base(server: string, existing: Option<string>): string {
    if existing.None? || existing.value == "" then "" else Strip(server, existing.value)
  }

  /** The text that is left, then the section; blanks alone make way for it. */
  function Connected(base: string, section: string): string {
    if Blank(base) then section
    else
      var trimmed := DropTrailing(base) + "\n";
      if |trimmed| >= 2 && trimmed[|trimmed| - 2..] == "\n\n" then trimmed + section
      else trimmed + "\n" + section
  }

  function Removed(base: string): string {
    if base == "\n" || base == "" then "" else base
  }

  /** The file's new text, for the rendered section. */
  function Merge(server: string, existing: Option<string>, remove: bool, section: string): string {
    var base := Base(server, existing);
    if remove then Removed(base)
    else Connected(base, section)
  }

  // ---------- lines of joined text ----------

  predicate OneLine(line: string) {
    '\n' !in line
  }

  ghost predicate Proper(ls: seq<string>) {
    forall l | l in ls :: OneLine(l)
  }

  function NonBlank(ls: seq<string>): seq<string> {
    if ls == [] then [] else (if ls[0] == "" then [] else [ls[0]]) + NonBlank(ls[1..])
  }

  lemma {:induction false} LinesProper(s: string)
    ensures Proper(Lines(s))
  {
    if s != "" {
      LinesProper(s[1..]);
      var rest := Lines(s[1..]);
      assert OneLine(rest[0]);
      assert forall l | l in rest[1..] :: l in rest;
    }
  }

  lemma LinesStep(c: char, s: string)
    ensures Lines([c] + s) == if c == '\n' then [""] + Lines(s) else [[c] + Lines(s)[0]] + Lines(s)[1..]
  {
    assert ([c] + s)[1..] == s;
  }

  lemma {:induction false} LinesOne(line: string)
    requires OneLine(line)
    ensures Lines(line) == [line]
  {
    if line != "" {
      assert line[0] in line && forall c | c in line[1..] :: c in line;
      LinesOne(line[1..]);
      assert [line[0]] + line[1..] == line;
    }
  }

  lemma {:induction false} LinesAppend(a: string, b: string)
    ensures Lines(a + "\n" + b) == Lines(a) + Lines(b)
  {
    if a == "" {
      LinesStep('\n', b);
      assert "" + "\n" + b == ['\n'] + b;
    } else {
      LinesAppend(a[1..], b);
      assert a + "\n" + b == [a[0]] + (a[1..] + "\n" + b);
      LinesStep(a[0], a[1..] + "\n" + b);
      Grow(a[0], Lines(a[1..]), Lines(b));
    }
  }

  lemma Grow(c: char, ls: seq<string>, more: seq<string>)
    requires ls != []
    ensures [""] + (ls + more) == ([""] + ls) + more
    ensures [[c] + (ls + more)[0]] + (ls + more)[1..] == ([[c] + ls[0]] + ls[1..]) + more
  {
  }

  lemma {:induction false} LinesJoin(ls: seq<string>)
    requires Proper(ls)
    ensures ls != [] ==> Lines(Join(ls)) == ls
    ensures NonBlank(Lines(Join(ls))) == NonBlank(ls)
  {
    if |ls| == 1 {
      LinesOne(ls[0]);
    } else if ls != [] {
      LinesOne(ls[0]);
      LinesJoin(ls[1..]);
      LinesAppend(ls[0], Join(ls[1..]));
    }
  }

  lemma {:induction false} JoinLines(s: string)
    ensures Join(Lines(s)) == s
  {
    if s != "" {
      JoinLines(s[1..]);
    }
  }

  lemma {:induction false} JoinAppend(a: seq<string>, b: seq<string>)
    requires a != [] && b != []
    ensures Join(a + b) == Join(a) + "\n" + Join(b)
  {
    if |a| == 1 {
      assert (a + b)[1..] == b;
    } else {
      JoinAppend(a[1..], b);
      assert (a + b)[1..] == a[1..] + b;
    }
  }

  lemma {:induction false} NonBlankAppend(a: seq<string>, b: seq<string>)
    ensures NonBlank(a + b) == NonBlank(a) + NonBlank(b)
  {
    Head(a, b);
    if a == [] {
      Empty(NonBlank(b));
    } else {
      NonBlankAppend(a[1..], b);
      var first := if a[0] == "" then [] else [a[0]];
      Assoc(first, NonBlank(a[1..]), NonBlank(b));
    }
  }

  lemma {:induction false} NonBlankElements(ls: seq<string>, l: string)
    ensures l in NonBlank(ls) <==> l in ls && l != ""
  {
    if ls != [] {
      NonBlankElements(ls[1..], l);
    }
  }

  // ---------- tidying keeps the lines that are not blank ----------

  lemma FirstBlank(ls: seq<string>)
    ensures ([""] + ls)[0] == "" && ([""] + ls)[1..] == ls && NonBlank([""] + ls) == NonBlank(ls)
  {
    Empty(NonBlank(ls));
  }

  lemma FirstGrows(c: char, a: seq<string>, b: seq<string>)
    requires a != [] && b != [] && a[0] == b[0] && NonBlank(a[1..]) == NonBlank(b[1..])
    ensures var x, y := [[c] + a[0]] + a[1..], [[c] + b[0]] + b[1..];
            x[0] == y[0] && x[1..] == a[1..] && y[1..] == b[1..] && NonBlank(x) == NonBlank(y)
  {
  }

  lemma {:induction false} CollapseKeeps(s: string, run: nat)
    ensures var c := Collapse(s, run);
            && NonBlank(Lines(c)) == NonBlank(Lines(s))
            && (run < 2 ==> Lines(c)[0] == Lines(s)[0] && NonBlank(Lines(c)[1..]) == NonBlank(Lines(s)[1..]))
  {
    if s != "" {
      var next := if s[0] == '\n' then run + 1 else 0;
      var c := Collapse(s[1..], next);
      CollapseKeeps(s[1..], next);
      assert s == [s[0]] + s[1..];
      LinesStep(s[0], s[1..]);
      LinesStep(s[0], c);
      if s[0] == '\n' {
        FirstBlank(Lines(s[1..]));
        FirstBlank(Lines(c));
        Empty(c);
      } else {
        FirstGrows(s[0], Lines(s[1..]), Lines(c));
      }
    }
  }

  lemma {:induction false} DropLeadingKeeps(s: string)
    ensures NonBlank(Lines(DropLeading(s))) == NonBlank(Lines(s))
  {
    if s != "" && s[0] == '\n' {
      DropLeadingKeeps(s[1..]);
      FirstBlank(Lines(s[1..]));
    }
  }

  lemma {:induction false} DropTrailingKeeps(s: string)
    ensures NonBlank(Lines(DropTrailing(s))) == NonBlank(Lines(s))
  {
    if s != "" && s[|s| - 1] == '\n' {
      var front := s[..|s| - 1];
      DropTrailingKeeps(front);
      assert s == front + "\n" + "";
      LinesAppend(front, "");
      NonBlankAppend(Lines(front), [""]);
      Empty(NonBlank(Lines(front)));
    }
  }

  lemma BodyKeeps(s: string)
    ensures NonBlank(Lines(Body(s))) == NonBlank(Lines(s))
  {
    CollapseKeeps(s, 0);
    DropLeadingKeeps(Collapse(s, 0));
    DropTrailingKeeps(DropLeading(Collapse(s, 0)));
  }

  /** No run of three line feeds, counting `run` of them before the text. */
  predicate Calm(s: string, run: nat) {
    s == "" || if s[0] == '\n' then run < 2 && Calm(s[1..], run + 1) else Calm(s[1..], 0)
  }

  lemma {:induction false} CalmLess(s: string, run: nat, less: nat)
    requires Calm(s, run) && less <= run
    ensures Calm(s, less)
  {
    if s != "" && s[0] == '\n' {
      CalmLess(s[1..], run + 1, less + 1);
    }
  }

  lemma {:induction false} CollapseIsCalm(s: string, run: nat)
    ensures Calm(Collapse(s, run), if run < 2 then run else 2)
  {
    if s != "" {
      var next := if s[0] == '\n' then run + 1 else 0;
      var c := Collapse(s[1..], next);
      CollapseIsCalm(s[1..], next);
      Empty(c);
      assert ([s[0]] + c)[1..] == c;
    }
  }

  lemma {:induction false} CalmIsCollapsed(s: string, run: nat)
    requires Calm(s, run)
    ensures Collapse(s, run) == s
  {
    if s != "" {
      CalmIsCollapsed(s[1..], if s[0] == '\n' then run + 1 else 0);
    }
  }

  lemma {:induction false} DropLeadingCalm(s: string, run: nat)
    requires Calm(s, run)
    ensures Calm(DropLeading(s), 0)
  {
    if s != "" && s[0] == '\n' {
      DropLeadingCalm(s[1..], run + 1);
    } else {
      CalmLess(s, run, 0);
    }
  }

  lemma {:induction false} PrefixCalm(s: string, p: string, run: nat)
    requires Calm(s, run) && p <= s
    ensures Calm(p, run)
  {
    if p != "" {
      PrefixCalm(s[1..], p[1..], if s[0] == '\n' then run + 1 else 0);
    }
  }

  lemma {:induction false} CalmPlus(s: string, run: nat)
    requires Calm(s, run) && (if s == "" then run < 2 else s[|s| - 1] != '\n')
    ensures Calm(s + "\n", run)
  {
    if s != "" {
      assert (s + "\n")[1..] == s[1..] + "\n";
      CalmPlus(s[1..], if s[0] == '\n' then run + 1 else 0);
    }
  }

  /** Tidying what is tidied already gives it back. */
  lemma BodyAgain(s: string)
    ensures Body(Body(s) + "\n") == Body(s)
  {
    var lead := DropLeading(Collapse(s, 0));
    var c := Body(s);
    CollapseIsCalm(s, 0);
    DropLeadingCalm(Collapse(s, 0), 0);
    PrefixCalm(lead, c, 0);
    CalmPlus(c, 0);
    CalmIsCollapsed(c + "\n", 0);
    Cut(c, "\n");
    if c == "" {
      assert c + "\n" == "\n" && "\n"[1..] == "";
      assert DropLeading("") == "";
    } else {
      assert c[0] == lead[0] && (c + "\n")[0] == c[0];
      assert DropTrailing(c + "\n") == DropTrailing(c) == c;
    }
  }

  // ---------- what is kept ----------

  lemma {:induction false} KeepAppend(server: string, a: seq<string>, b: seq<string>, skipping: bool)
    ensures Keep(server, a + b, skipping) == Keep(server, a, skipping) + Keep(server, b, Left(server, a, skipping))
  {
    Head(a, b);
    if a == [] {
      Empty(Keep(server, b, skipping));
    } else {
      var now := Skipping(server, skipping, a[0]);
      KeepAppend(server, a[1..], b, now);
      Assoc(if now then [] else [a[0]], Keep(server, a[1..], now), Keep(server, b, Left(server, a[1..], now)));
    }
  }

  lemma {:induction false} KeptElements(server: string, ls: seq<string>, skipping: bool, l: string)
    requires l in Keep(server, ls, skipping)
    ensures l in ls && !OpensOurs(server, l)
  {
    var now := Skipping(server, skipping, ls[0]);
    if now || l != ls[0] {
      KeptElements(server, ls[1..], now, l);
    }
  }

  /** Text without our section is kept whole. */
  lemma {:induction false} KeepAll(server: string, ls: seq<string>)
    requires forall l | l in ls :: !OpensOurs(server, l)
    ensures Keep(server, ls, false) == ls && !Left(server, ls, false)
  {
    if ls != [] {
      assert ls[0] in ls && !Skipping(server, false, ls[0]);
      KeepAll(server, ls[1..]);
      assert [ls[0]] + ls[1..] == ls;
    }
  }

  lemma {:induction false} KeepNone(server: string, ls: seq<string>)
    requires forall l | l in ls :: Table(l).None?
    ensures Keep(server, ls, true) == [] && Left(server, ls, true)
  {
    if ls != [] {
      KeepNone(server, ls[1..]);
    }
  }

  /** Total length of the lines; blank ones add nothing. */
  function Total(ls: seq<string>): nat {
    if ls == [] then 0 else |ls[0]| + Total(ls[1..])
  }

  lemma {:induction false} TotalNonBlank(ls: seq<string>)
    ensures Total(NonBlank(ls)) == Total(ls)
  {
    if ls != [] {
      TotalNonBlank(ls[1..]);
      Head([ls[0]], NonBlank(ls[1..]));
      Empty(NonBlank(ls[1..]));
    }
  }

  lemma {:induction false} TotalKeep(server: string, ls: seq<string>, skipping: bool)
    ensures Total(Keep(server, ls, skipping)) <= Total(ls)
  {
    if ls != [] {
      var now := Skipping(server, skipping, ls[0]);
      TotalKeep(server, ls[1..], now);
      Head([ls[0]], Keep(server, ls[1..], now));
      Empty(Keep(server, ls[1..], now));
    }
  }

  lemma {:induction false} TotalDropReturns(ls: seq<string>)
    ensures Total(DropReturns(ls)) <= Total(ls)
    ensures Total(DropReturns(ls)) == Total(ls) ==> NoReturns(ls)
  {
    if ls != [] {
      TotalDropReturns(ls[1..]);
      assert DropReturns(ls)[1..] == DropReturns(ls[1..]);
      assert forall l | l in ls :: l == ls[0] || l in ls[1..];
    }
  }

  /** No line ends in a return that a second cut would take. */
  predicate NoReturns(ls: seq<string>) {
    forall l | l in ls :: !EndsInReturn(l)
  }

  lemma NoReturnsKept(ls: seq<string>)
    requires NoReturns(ls)
    ensures DropReturns(ls) == ls
  {
    forall i | 0 <= i < |ls|
      ensures DropReturns(ls)[i] == ls[i]
    {
      assert ls[i] in ls;
    }
  }

  function Kept(server: string, toml: string): seq<string> {
    Keep(server, Split(toml), false)
  }

  lemma SplitProper(toml: string)
    ensures Proper(Split(toml))
  {
    LinesProper(toml);
    var ls := Lines(toml);
    forall l | l in Split(toml)
      ensures OneLine(l)
    {
      var i :| 0 <= i < |ls| && Split(toml)[i] == l;
      assert ls[i] in ls;
      assert forall c | c in l :: c in ls[i];
    }
  }

  /** Main result on cutting: what is left is the lines outside our sections, in order, but for blank ones. */
  lemma StripKeepsTheRest(server: string, toml: string)
    ensures NonBlank(Lines(Strip(server, toml))) == NonBlank(Kept(server, toml))
    ensures forall l | l in Lines(Strip(server, toml)) :: !OpensOurs(server, l)
  {
    var kept := Kept(server, toml);
    var body := Body(Join(kept));
    SplitProper(toml);
    forall l | l in kept
      ensures OneLine(l) && !OpensOurs(server, l)
    {
      KeptElements(server, Split(toml), false, l);
    }
    LinesJoin(kept);
    BodyKeeps(Join(kept));
    assert body + "\n" == body + "\n" + "";
    LinesAppend(body, "");
    NonBlankAppend(Lines(body), [""]);
    Empty(NonBlank(Lines(body)));
    forall l | l in Lines(Strip(server, toml))
      ensures !OpensOurs(server, l)
    {
      NonBlankElements(Lines(Strip(server, toml)), l);
      NonBlankElements(kept, l);
    }
  }

  // ---------- our own section ----------

  /** Tool names are plain words. */
  predicate Plain(s: string) {
    '\n' !in s && '\r' !in s
  }

  ghost predicate AllPlain(ls: seq<string>) {
    forall l | l in ls :: Plain(l)
  }

  /** A line of the section after its first: it opens no table. */
  predicate Setting(line: string) {
    Plain(line) && (line == "" || line[0] != '[')
  }

  lemma {:induction false} QuotedPlain(tools: seq<string>)
    requires AllPlain(tools)
    ensures Plain(Quoted(tools))
  {
    if tools != [] {
      QuotedPlain(tools[1..]);
      assert Plain(tools[0]);
    }
  }

  lemma {:induction false} RowsSet(tools: seq<string>)
    requires AllPlain(tools)
    ensures forall l | l in Rows(tools) :: Setting(l)
  {
    if |tools| <= 5 {
      QuotedPlain(tools);
    } else {
      QuotedPlain(tools[..5]);
      RowsSet(tools[5..]);
    }
  }

  lemma UrlSet()
    ensures Setting(URL)
  {
  }

  lemma TokenSet()
    ensures Setting(TOKEN)
  {
  }

  lemma LimitsSet()
    ensures Setting(STARTUP) && Setting(TIMEOUT)
  {
  }

  lemma EnabledSet()
    ensures Setting(ENABLED)
  {
  }

  lemma GeneratedSet()
    ensures Setting(GENERATED)
  {
  }

  lemma WarningSet()
    ensures Plain(WARNING)
  {
  }

  lemma NoteSet()
    ensures Setting(GENERATED + WARNING)
  {
    GeneratedSet();
    WarningSet();
  }

  lemma ToolsSet()
    ensures Setting(TOOLS)
  {
  }

  lemma ApprovalSet()
    ensures Setting(APPROVAL)
  {
  }

  lemma ConstantsSet()
    ensures forall l | l in [URL, TOKEN, STARTUP, TIMEOUT, ENABLED, GENERATED + WARNING, TOOLS] :: Setting(l)
    ensures forall l | l in ["]", APPROVAL, ""] :: Setting(l)
  {
    UrlSet();
    TokenSet();
    LimitsSet();
    EnabledSet();
    NoteSet();
    ToolsSet();
    ApprovalSet();
  }

  lemma {:induction false} UntilFound(s: string, more: string, c: char)
    requires c !in s
    ensures Until(s + [c] + more, c) == |s|
  {
    if s != "" {
      assert s[0] in s && forall d | d in s[1..] :: d in s;
      assert (s + [c] + more)[1..] == s[1..] + [c] + more;
      UntilFound(s[1..], more, c);
    }
  }

  /** A server name that fits into a table header. */
  predicate Named(server: string) {
    server != "" && Plain(server) && ']' !in server
  }

  lemma ModelbotIsNamed()
    ensures Named("mcp_servers.modelbot")
  {
  }

  lemma HeaderOpens(server: string)
    requires Named(server)
    ensures OpensOurs(server, "[" + server + "]") && Plain("[" + server + "]")
  {
    var line := "[" + server + "]";
    assert line[1..] == server + [']'] + "";
    UntilFound(server, "", ']');
    assert line[1..|server| + 1] == server;
  }

  /** What the cutter takes for our section: our table's header, then settings without returns. */
  predicate IsSection(server: string, section: string) {
    var ls := Lines(section);
    OpensOurs(server, ls[0]) && NoReturns(ls) && forall i | 1 <= i < |ls| :: Table(ls[i]).None?
  }

  /** The section that connecting renders is one. */
  lemma RenderedIsSection(server: string, tools: seq<string>)
    requires Named(server) && AllPlain(tools)
    ensures IsSection(server, Section(server, tools)) && Lines(Section(server, tools)) == SectionLines(server, tools)
  {
    var ls := SectionLines(server, tools);
    HeaderOpens(server);
    ConstantsSet();
    RowsSet(tools);
    assert forall l | l in Settings(tools) :: Setting(l);
    assert ls[0] == "[" + server + "]" && ls[1..] == Settings(tools);
    forall l | l in ls
      ensures Plain(l)
    {
      assert l == ls[0] || l in ls[1..];
    }
    LinesJoin(ls);
    forall i | 1 <= i < |ls|
      ensures Setting(ls[i])
    {
      assert ls[i] == ls[1..][i - 1];
    }
  }

  /** So is the section under the name that connecting uses. */
  lemma ModelbotSection(tools: seq<string>)
    requires AllPlain(tools)
    ensures IsSection("mcp_servers.modelbot", Section("mcp_servers.modelbot", tools))
  {
    ModelbotIsNamed();
    RenderedIsSection("mcp_servers.modelbot", tools);
  }

  lemma SectionSkipped(server: string, section: string, skipping: bool)
    requires IsSection(server, section)
    ensures Keep(server, Lines(section), skipping) == []
  {
    var ls := Lines(section);
    assert ls[1..] == [] || forall l | l in ls[1..] :: Table(l).None?;
    KeepNone(server, ls[1..]);
    Empty(Keep(server, ls[1..], true));
  }

  // ---------- connecting and removing ----------

  /** Text that has been cut and tidied, without its last line feed. */
  ghost predicate Settled(server: string, body: string) {
    && Body(body + "\n") == body && DropTrailing(body) == body
    && forall l | l in Lines(body) :: !OpensOurs(server, l)
  }

  lemma BodySettled(server: string, toml: string)
    ensures var body := Body(Join(Kept(server, toml)));
            && Settled(server, body)
            && NonBlank(Lines(body)) == NonBlank(Kept(server, toml))
            && (NoReturns(Lines(body)) <==> NoReturns(Kept(server, toml)))
  {
    var kept := Kept(server, toml);
    var before := Lines(Body(Join(kept)));
    SplitProper(toml);
    forall l | l in kept
      ensures OneLine(l) && !OpensOurs(server, l)
    {
      KeptElements(server, Split(toml), false, l);
    }
    LinesJoin(kept);
    BodyKeeps(Join(kept));
    BodyAgain(Join(kept));
    forall l
      ensures l in before && l != "" <==> l in kept && l != ""
    {
      NonBlankElements(before, l);
      NonBlankElements(kept, l);
    }
  }

  /** A body connects to itself, a blank line and the section. */
  lemma ConnectedText(body: string, section: string)
    requires DropTrailing(body) == body && !Blank(body + "\n")
    ensures Connected(body + "\n", section) == body + ("\n" + "\n" + section)
  {
    var base := body + "\n";
    assert base[..|base| - 1] == body;
    assert DropTrailing(base) == body;
    assert body != "" ==> base[|base| - 2] == body[|body| - 1] != '\n';
    Assoc(body, "\n", "\n");
    Assoc(body, "\n" + "\n", section);
  }

  lemma ConnectedInjective(a: string, b: string, section: string)
    requires DropTrailing(a) == a && DropTrailing(b) == b && !Blank(b + "\n")
    ensures Connected(a + "\n", section) == Connected(b + "\n", section) <==> a == b
  {
    var end := "\n" + "\n" + section;
    ConnectedText(b, section);
    if Blank(a + "\n") {
      assert |b + end| > |section|;
    } else {
      ConnectedText(a, section);
      Cut(a, end);
      Cut(b, end);
      if a + end == b + end {
        assert |a| == |b|;
      }
    }
  }

  lemma LinesApart(a: string, b: string)
    ensures Lines(a + ("\n" + "\n" + b)) == Lines(a) + ([""] + Lines(b))
  {
    assert a + ("\n" + "\n" + b) == a + "\n" + ("" + "\n" + b);
    LinesAppend(a, "" + "\n" + b);
    LinesAppend("", b);
  }

  lemma SplitParts(a: seq<string>, b: seq<string>)
    requires b != [] && NoReturns(b)
    ensures DropReturns((a + b)[..|a + b| - 1]) + [(a + b)[|a + b| - 1]] == DropReturns(a) + b
  {
    assert forall l | l in b[..|b| - 1] :: l in b;
    NoReturnsKept(b[..|b| - 1]);
    assert (a + b)[..|a + b| - 1] == a + b[..|b| - 1];
    assert DropReturns(a + b[..|b| - 1]) == DropReturns(a) + DropReturns(b[..|b| - 1]);
    assert b[..|b| - 1] + [b[|b| - 1]] == b;
  }

  lemma SplitJoined(text: string, a: seq<string>, b: seq<string>)
    requires Lines(text) == a + b && b != [] && NoReturns(b)
    ensures Split(text) == DropReturns(a) + b
  {
    SplitParts(a, b);
  }

  /** What a cut sees of text whose last lines hold no returns. */
  lemma KeptParts(server: string, text: string, a: seq<string>, b: seq<string>)
    requires Lines(text) == a + b && b != [] && NoReturns(b)
    ensures Kept(server, text) ==
            Keep(server, DropReturns(a), false) + Keep(server, b, Left(server, DropReturns(a), false))
  {
    SplitJoined(text, a, b);
    KeepAppend(server, DropReturns(a), b, false);
  }

  /** What a second cut sees of connected text. */
  lemma ConnectedKept(server: string, body: string, section: string)
    requires IsSection(server, section)
    ensures var cut := DropReturns(Lines(body));
            Kept(server, body + ("\n" + "\n" + section)) ==
            Keep(server, cut, false) + if Left(server, cut, false) then [] else [""]
  {
    var after, skipping := [""] + Lines(section), Left(server, DropReturns(Lines(body)), false);
    LinesApart(body, section);
    BlankAndSection(server, section, skipping);
    KeptParts(server, body + ("\n" + "\n" + section), Lines(body), after);
  }

  lemma BlankAndSection(server: string, section: string, skipping: bool)
    requires IsSection(server, section)
    ensures var after := [""] + Lines(section);
            NoReturns(after) && Keep(server, after, skipping) == if skipping then [] else [""]
  {
    var ls := Lines(section);
    SectionSkipped(server, section, skipping);
    assert ([""] + ls)[1..] == ls;
    assert Skipping(server, skipping, "") == skipping;
  }

  lemma SectionAgain(server: string, section: string)
    requires IsSection(server, section)
    ensures section != "" && Strip(server, section) == "\n"
  {
    var ls := Lines(section);
    SectionSkipped(server, section, false);
    assert Table("").None?;
    Empty(ls);
    KeptParts(server, section, [], ls);
    Empty(Keep(server, ls, false));
    assert Body("") == "";
  }

  lemma {:induction false} TotalAppend(a: seq<string>, b: seq<string>)
    ensures Total(a + b) == Total(a) + Total(b)
  {
    Head(a, b);
    if a != [] {
      TotalAppend(a[1..], b);
    }
  }

  lemma TotalStrip(server: string, toml: string)
    ensures Total(Lines(Strip(server, toml))) == Total(Kept(server, toml))
  {
    StripKeepsTheRest(server, toml);
    TotalNonBlank(Kept(server, toml));
    TotalNonBlank(Lines(Strip(server, toml)));
  }

  /** A return that a second cut takes is missed in the total. */
  lemma ShorterAgain(server: string, body: string, section: string)
    requires IsSection(server, section) && !NoReturns(Lines(body))
    ensures Strip(server, body + ("\n" + "\n" + section)) != body + "\n"
  {
    var cut := DropReturns(Lines(body));
    ConnectedKept(server, body, section);
    TotalStrip(server, body + ("\n" + "\n" + section));
    TotalAppend(Keep(server, cut, false), if Left(server, cut, false) then [] else [""]);
    TotalKeep(server, cut, false);
    TotalDropReturns(Lines(body));
    Empty(body + "\n");
    LinesAppend(body, "");
    TotalAppend(Lines(body), [""]);
  }

  /** A second cut finds the same text exactly when no line of it ends in a return. */
  lemma CutAgain(server: string, body: string, section: string)
    requires Settled(server, body) && IsSection(server, section)
    ensures Strip(server, body + ("\n" + "\n" + section)) == body + "\n" <==> NoReturns(Lines(body))
  {
    if NoReturns(Lines(body)) {
      ConnectedKept(server, body, section);
      NoReturnsKept(Lines(body));
      KeepAll(server, Lines(body));
      JoinAppend(Lines(body), [""]);
      JoinLines(body);
      Empty(body + "\n");
    } else {
      ShorterAgain(server, body, section);
    }
  }

  /**
   * Everything outside our sections survives connecting, in order and but for blank lines, unless it is nothing
   * but blanks; and no line of it opens a section of ours: the new one is the only one.
   */
  lemma ConnectKeepsTheRest(server: string, toml: string, section: string)
    requires IsSection(server, section)
    ensures NonBlank(Lines(Merge(server, Some(toml), false, section))) ==
            (if Blank(Base(server, Some(toml))) then [] else NonBlank(Kept(server, toml))) + NonBlank(Lines(section))
    ensures forall l | l in Kept(server, toml) :: !OpensOurs(server, l)
  {
    Empty(NonBlank(Lines(section)));
    if !Blank(Base(server, Some(toml))) {
      var body := Body(Join(Kept(server, toml)));
      BodySettled(server, toml);
      ConnectedText(body, section);
      LinesApart(body, section);
      NonBlankAppend(Lines(body), [""] + Lines(section));
      FirstBlank(Lines(section));
    }
    forall l | l in Kept(server, toml)
      ensures !OpensOurs(server, l)
    {
      KeptElements(server, Split(toml), false, l);
    }
  }

  /** Whether no line outside our sections keeps a return that a second cut would take. */
  predicate Steady(server: string, existing: Option<string>) {
    existing.None? || NoReturns(Kept(server, existing.value))
  }

  /**
   * Main result: connecting twice is connecting once, exactly when there is nothing but blanks outside our
   * sections or no line there keeps a return.
   */
  lemma ConnectTwiceIff(server: string, existing: Option<string>, section: string)
    requires IsSection(server, section)
    ensures var once := Merge(server, existing, false, section);
            Merge(server, Some(once), false, section) == once <==>
            Blank(Base(server, existing)) || Steady(server, existing)
  {
    if Blank(Base(server, existing)) {
      SectionAgain(server, section);
    } else {
      var body := Body(Join(Kept(server, existing.value)));
      var once := body + ("\n" + "\n" + section);
      BodySettled(server, existing.value);
      BodySettled(server, once);
      ConnectedText(body, section);
      CutAgain(server, body, section);
      ConnectedInjective(Body(Join(Kept(server, once))), body, section);
      SameFeed(Body(Join(Kept(server, once))), body);
    }
  }

  lemma SameFeed(a: string, b: string)
    ensures a + "\n" == b + "\n" <==> a == b
  {
    Cut(a, "\n");
    Cut(b, "\n");
    if a + "\n" == b + "\n" {
      assert |a| == |b|;
    }
  }

  /** Removing undoes connecting. */
  predicate Undone(server: string, existing: Option<string>, section: string) {
    var once := Merge(server, existing, false, section);
    Merge(server, Some(once), true, section) == Merge(server, existing, true, section)
  }

  /**
   * Main result: removing after connecting gives what removing alone gives, exactly when the text outside
   * our sections is empty or one line feed, or has more than blanks and no line that keeps a return.
   */
  lemma RemoveAfterConnectIff(server: string, existing: Option<string>, section: string)
    requires IsSection(server, section)
    ensures Undone(server, existing, section) <==>
            || Base(server, existing) == "" || Base(server, existing) == "\n"
            || (!Blank(Base(server, existing)) && Steady(server, existing))
  {
    if Blank(Base(server, existing)) {
      UndoneBlank(server, existing, section);
    } else {
      UndoneText(server, existing, section);
    }
  }

  lemma UndoneBlank(server: string, existing: Option<string>, section: string)
    requires IsSection(server, section) && Blank(Base(server, existing))
    ensures Undone(server, existing, section) <==> Base(server, existing) == "" || Base(server, existing) == "\n"
  {
    SectionAgain(server, section);
    assert Merge(server, existing, false, section) == section;
    assert Merge(server, Some(section), true, section) == Removed("\n");
  }

  lemma UndoneText(server: string, existing: Option<string>, section: string)
    requires IsSection(server, section) && !Blank(Base(server, existing))
    ensures Undone(server, existing, section) <==> Steady(server, existing)
  {
    var base := Base(server, existing);
    var once := Connected(base, section);
    RemoveConnected(server, existing.value, section);
    assert Merge(server, existing, false, section) == once;
    assert Merge(server, Some(once), true, section) == Removed(Strip(server, once));
  }

  lemma RemovedDiffers(a: string, b: string)
    requires !Blank(b)
    ensures Removed(a) == Removed(b) <==> a == b
  {
  }

  lemma RemoveConnected(server: string, toml: string, section: string)
    requires IsSection(server, section) && !Blank(Strip(server, toml))
    ensures var once := Connected(Strip(server, toml), section);
            once != "" && (Removed(Strip(server, once)) == Removed(Strip(server, toml)) <==> Steady(server, Some(toml)))
  {
    var body := Body(Join(Kept(server, toml)));
    BodySettled(server, toml);
    ConnectedText(body, section);
    CutAgain(server, body, section);
    RemovedDiffers(Strip(server, body + ("\n" + "\n" + section)), Strip(server, toml));
  }

  /** Text without returns is steady. */
  lemma LineFeedsAreSteady(server: string, toml: string)
    requires '\r' !in toml
    ensures Steady(server, Some(toml))
  {
    forall l | l in Kept(server, toml)
      ensures !EndsInReturn(l)
    {
      KeptElements(server, Split(toml), false, l);
      SplitHasNoReturns(toml, l);
    }
  }

  lemma SplitHasNoReturns(toml: string, l: string)
    requires '\r' !in toml && l in Split(toml)
    ensures !EndsInReturn(l)
  {
    LinesOf(toml);
    var ls := Lines(toml);
    var i :| 0 <= i < |ls| && Split(toml)[i] == l;
    assert ls[i] in ls;
    assert forall c | c in l :: c in ls[i];
  }

  lemma {:induction false} LinesOf(s: string)
    requires '\r' !in s
    ensures forall l | l in Lines(s) :: '\r' !in l
  {
    if s != "" {
      assert s[0] in s && forall c | c in s[1..] :: c in s;
      LinesOf(s[1..]);
      var rest := Lines(s[1..]);
      assert rest[0] in rest && forall l | l in rest[1..] :: l in rest;
    }
  }

  lemma OneBlank(server: string)
    ensures Strip(server, " ") == " \n" && Blank(" \n")
  {
    LinesOne(" ");
    assert Split(" ") == [" "];
    assert Skipping(server, false, " ") == false;
    assert Keep(server, [" "], false) == [" "];
    assert Body(" ") == " ";
  }

  /** Blanks alone are lost: removing leaves them, removing after connecting does not. */
  lemma BlanksAreLost(server: string, section: string)
    requires IsSection(server, section)
    ensures Merge(server, Some(" "), true, section) == " \n"
    ensures Merge(server, Some(Merge(server, Some(" "), false, section)), true, section) == ""
  {
    OneBlank(server);
    SectionAgain(server, section);
  }
}
