/**
 * What a TOML reader finds in the rendered section: the table it opens and the list of tools it enables.
 */
module ConnectTools {
  import opened Seqs
  import opened Wrappers
  import opened ConnectToml

  // ---------- table headers ----------

  /** A line opens a table exactly when it is a bracketed name followed by blanks. */
  lemma TableIff(line: string, name: string)
    ensures Table(line) == Some(name) <==>
            name != "" && ']' !in name && "[" + name + "]" <= line && Blank(line[|name| + 2..])
  {
    if line != "" && line[0] == '[' {
      var n := Until(line[1..], ']');
      if "[" + name + "]" <= line && ']' !in name {
        var more := line[|name| + 2..];
        assert line == "[" + name + "]" + more;
        assert line[1..] == name + [']'] + more;
        UntilFound(name, more, ']');
        assert line[1..n + 1] == name;
      }
      if Table(line) == Some(name) {
        assert |name| == n && name == line[1..][..n];
        assert "[" + name + "]" == line[..n + 2];
      }
    }
  }

  /** The tables that are cut: the server's own and those below it. */
  lemma OursIff(server: string, name: string)
    requires name != "" && ']' !in name
    ensures OpensOurs(server, "[" + name + "]") <==>
            name == server || (|name| > |server| && name[..|server|] == server && name[|server|] == '.')
  {
    var line := "[" + name + "]";
    assert line[|name| + 2..] == "";
    TableIff(line, name);
    if |name| > |server| {
      assert server + "." <= name <==> name[..|server| + 1] == server + ".";
      assert name[..|server| + 1] == name[..|server|] + [name[|server|]];
    }
  }

  // ---------- blank lines ----------

  /** Three line feeds in a row, from position i. */
  predicate Three(s: string, i: nat) {
    i + 2 < |s| && s[i] == '\n' && s[i + 1] == '\n' && s[i + 2] == '\n'
  }

  lemma {:induction false} CalmHasNoThree(s: string, run: nat, i: nat)
    requires Calm(s, run)
    ensures !Three(s, i)
  {
    if i + 2 < |s| {
      if i == 0 {
        assert s[1..][0] == s[1] && s[1..][1..][0] == s[2];
        assert s[0] == '\n' && s[1] == '\n' ==> Calm(s[1..][1..], run + 2);
      } else {
        CalmHasNoThree(s[1..], if s[0] == '\n' then run + 1 else 0, i - 1);
        assert Three(s, i) <==> Three(s[1..], i - 1);
      }
    }
  }

  /** Cut text ends in one line feed, starts with none but for that one, and has no two blank lines in a row. */
  lemma StripIsTidy(server: string, toml: string, i: nat)
    ensures var t := Strip(server, toml);
            && t != "" && t[|t| - 1] == '\n' && (|t| > 1 ==> t[0] != '\n' && t[|t| - 2] != '\n')
            && !Three(t, i)
  {
    var text := Join(Kept(server, toml));
    var lead, c := DropLeading(Collapse(text, 0)), Body(text);
    CollapseIsCalm(text, 0);
    DropLeadingCalm(Collapse(text, 0), 0);
    PrefixCalm(lead, c, 0);
    CalmPlus(c, 0);
    CalmHasNoThree(c + "\n", 0, i);
  }

  /** White space as `trim` and the table pattern of ECMAScript have it, by code unit. */
  predicate White(c: char) {
    || 9 <= c as int <= 13 || 8192 <= c as int <= 8202
    || c as int in {32, 160, 5760, 8232, 8233, 8239, 8287, 12288, 65279}
  }

  lemma BlankIff(s: string)
    ensures Blank(s) <==> forall c | c in s :: White(c)
  {
    if Blank(s) {
      forall c | c in s
        ensures White(c)
      {
        var i :| 0 <= i < |s| && s[i] == c;
        assert IsSpace(s[i]);
      }
    }
    if forall c | c in s :: White(c) {
      forall i | 0 <= i < |s|
        ensures IsSpace(s[i])
      {
        assert s[i] in s;
      }
    }
  }

  /** The section stands last: alone where there are only blanks, and else after one blank line. */
  lemma SectionIsLast(base: string, section: string)
    ensures Connected(base, section) ==
            if forall c | c in base :: White(c) then section else DropTrailing(base) + "\n\n" + section
    ensures DropTrailing(base) <= base && (forall c | c in base[|DropTrailing(base)|..] :: c == '\n')
  {
    var kept := DropTrailing(base);
    BlankIff(base);
    assert kept + "\n" + "\n" == kept + "\n\n";
    if kept != [] {
      assert (kept + "\n")[|kept| - 1] == kept[|kept| - 1];
    }
    DroppedAreLineFeeds(base);
  }

  lemma {:induction false} DroppedAreLineFeeds(s: string)
    ensures forall c | c in s[|DropTrailing(s)|..] :: c == '\n'
  {
    if s != "" && s[|s| - 1] == '\n' {
      var front := s[..|s| - 1];
      DroppedAreLineFeeds(front);
      assert s[|DropTrailing(front)|..] == front[|DropTrailing(front)|..] + "\n";
    }
  }

  // ---------- the list of tools ----------

  predicate IsGap(c: char) {
    c == ' ' || c == '\t' || c == '\n'
  }

  /** White space between the parts of an array. */
  function SkipSpace(s: string): (r: string)
    ensures |r| <= |s|
  {
    if s != "" && IsGap(s[0]) then SkipSpace(s[1..]) else s
  }

  /** A text in quotes, and what follows it and its white space. */
  function ReadName(t: string): (r: Option<(string, string)>)
    ensures r.Some? ==> |r.value.1| < |t|
  {
    if t == "" || t[0] != '"' || Until(t[1..], '"') == |t| - 1 then None
    else
      var n := Until(t[1..], '"');
      Some((t[1..n + 1], SkipSpace(t[n + 2..])))
  }

  /** The texts of an array after its opening bracket, and what follows the array. */
  function ReadArray(s: string): Option<(seq<string>, string)>
    decreases |s|
  {
    var t := SkipSpace(s);
    if t != "" && t[0] == ']' then Some(([], t[1..]))
    else
      match ReadName(t)
      case None => None
      case Some((name, rest)) =>
        if rest == "" then None
        else if rest[0] == ']' then Some(([name], rest[1..]))
        else if rest[0] == ',' then Prepend([name], ReadArray(rest[1..]))
        else None
  }

  /** A name that needs no escapes between quotes. */
  predicate Word(name: string) {
    '"' !in name && '\\' !in name
  }

  function Prepend(names: seq<string>, read: Option<(seq<string>, string)>): Option<(seq<string>, string)> {
    if read.None? then None else Some((names + read.value.0, read.value.1))
  }

  lemma SpaceIsSkipped(c: char, s: string)
    requires IsGap(c)
    ensures SkipSpace([c] + s) == SkipSpace(s) && ReadArray([c] + s) == ReadArray(s)
  {
    Cut([c], s);
  }

  lemma QuotedName(name: string, s: string)
    requires Word(name)
    ensures ReadName("\"" + name + "\"" + s) == Some((name, SkipSpace(s)))
  {
    var t := "\"" + name + "\"" + s;
    assert t[1..] == name + ['"'] + s;
    UntilFound(name, s, '"');
    assert t[1..|name| + 1] == name && t[|name| + 2..] == s;
  }

  /** A quoted name, and then a comma or the end. */
  lemma MoreNames(t: string, name: string, s: string)
    requires t != "" && t[0] == '"' && ReadName(t) == Some((name, "," + s))
    ensures ReadArray(t) == Prepend([name], ReadArray(s))
  {
    Cut(",", s);
  }

  lemma LastName(t: string, name: string, s: string)
    requires t != "" && t[0] == '"' && ReadName(t) == Some((name, "]" + s))
    ensures ReadArray(t) == Some(([name], s))
  {
    Cut("]", s);
  }

  lemma OneName(name: string, s: string)
    requires Word(name)
    ensures ReadArray(Quoted([name]) + ("," + s)) == Prepend([name], ReadArray(s))
  {
    var t := "\"" + name + "\"" + ("," + s);
    assert Quoted([name]) == "\"" + name + "\"";
    QuotedName(name, "," + s);
    MoreNames(t, name, s);
  }

  lemma OnlyName(name: string, s: string)
    requires Word(name)
    ensures ReadArray(Quoted([name]) + ("\n" + ("]" + s))) == Some(([name], s))
  {
    var t := "\"" + name + "\"" + ("\n" + ("]" + s));
    assert Quoted([name]) == "\"" + name + "\"";
    QuotedName(name, "\n" + ("]" + s));
    SpaceIsSkipped('\n', "]" + s);
    LastName(t, name, s);
  }

  lemma PrependTwice(first: string, names: seq<string>, read: Option<(seq<string>, string)>)
    ensures Prepend([first], Prepend(names, read)) == Prepend([first] + names, read)
  {
    if read.Some? {
      Assoc([first], names, read.value.0);
    }
  }

  /** A row of names that others follow, and the last one. */
  lemma {:induction false} RowIsRead(names: seq<string>, s: string)
    requires names != [] && forall name | name in names :: Word(name)
    ensures ReadArray(Quoted(names) + ("," + s)) == Prepend(names, ReadArray(s))
  {
    assert names[0] in names;
    if |names| == 1 {
      OneName(names[0], s);
      assert names == [names[0]];
    } else {
      NameThenMore(names, "," + s);
      RowIsRead(names[1..], s);
      PrependTwice(names[0], names[1..], ReadArray(s));
      assert [names[0]] + names[1..] == names;
    }
  }

  lemma {:induction false} LastRowIsRead(names: seq<string>, s: string)
    requires names != [] && forall name | name in names :: Word(name)
    ensures ReadArray(Quoted(names) + ("\n" + ("]" + s))) == Some((names, s))
  {
    assert names[0] in names;
    if |names| == 1 {
      OnlyName(names[0], s);
      assert names == [names[0]];
    } else {
      NameThenMore(names, "\n" + ("]" + s));
      LastRowIsRead(names[1..], s);
      assert [names[0]] + names[1..] == names;
    }
  }

  lemma NameThenMore(names: seq<string>, s: string)
    requires |names| > 1 && Word(names[0])
    ensures ReadArray(Quoted(names) + s) == Prepend([names[0]], ReadArray(Quoted(names[1..]) + s))
  {
    var more := Quoted(names[1..]) + s;
    assert Quoted(names) + s == "\"" + names[0] + "\"" + ("," + (" " + more));
    QuotedName(names[0], "," + (" " + more));
    MoreNames(Quoted(names) + s, names[0], " " + more);
    SpaceIsSkipped(' ', more);
  }

  /** What stands between the line that opens the array and the end of the section. */
  function ListText(tools: seq<string>, s: string): string {
    Join(Rows(tools)) + ("\n" + ("]" + s))
  }

  lemma {:induction false} ListIsRead(tools: seq<string>, s: string)
    requires tools != [] && forall name | name in tools :: Word(name)
    ensures ReadArray(ListText(tools, s)) == Some((tools, s))
    decreases |tools|
  {
    if |tools| <= 5 {
      assert Join(Rows(tools)) == "  " + Quoted(tools);
      LastRowIsRead(tools, s);
      Indented(Quoted(tools), "\n" + ("]" + s));
    } else {
      var row, more := tools[..5], tools[5..];
      ListIsRead(more, s);
      RowIsRead(row, "\n" + ListText(more, s));
      SpaceIsSkipped('\n', ListText(more, s));
      RowThenMore(tools, s);
      Indented(Quoted(row), "," + ("\n" + ListText(more, s)));
      assert row + more == tools;
    }
  }

  lemma Indented(a: string, b: string)
    ensures ReadArray("  " + a + b) == ReadArray(a + b)
  {
    SpaceIsSkipped(' ', a + b);
    SpaceIsSkipped(' ', " " + (a + b));
    assert "  " + a + b == " " + (" " + (a + b));
  }

  lemma RowThenMore(tools: seq<string>, s: string)
    requires |tools| > 5
    ensures ListText(tools, s) == "  " + Quoted(tools[..5]) + ("," + ("\n" + ListText(tools[5..], s)))
  {
    var row := "  " + Quoted(tools[..5]);
    var more := Join(Rows(tools[5..]));
    assert Rows(tools)[1..] == Rows(tools[5..]) && |Rows(tools)| > 1;
    assert Join(Rows(tools)) == row + "," + "\n" + more;
    Assoc(row + "," + "\n", more, "\n" + ("]" + s));
    Assoc(row + ",", "\n", more + ("\n" + ("]" + s)));
    Assoc(row, ",", "\n" + (more + ("\n" + ("]" + s))));
  }

  lemma TailLines(x: string, rows: seq<string>)
    requires rows != []
    ensures Join(rows + ["]", x, ""]) == Join(rows) + ("\n" + ("]" + ("\n" + x + "\n")))
  {
    var tail := ["]", x, ""];
    JoinAppend(rows, tail);
    TailText(x);
    Assoc(Join(rows), "\n", Join(tail));
  }

  lemma TailText(x: string)
    ensures Join(["]", x, ""]) == "]" + ("\n" + x + "\n")
  {
    assert ["]", x, ""][1..] == [x, ""] && [x, ""][1..] == [""];
    assert Join([x, ""]) == x + "\n" + "";
  }

  /** Any number of tools, also none, between their rows' line and what follows the array. */
  lemma RowsAreRead(tools: seq<string>, x: string)
    requires forall name | name in tools :: Word(name)
    ensures ReadArray(Join(Rows(tools) + ["]", x, ""])) == Some((tools, "\n" + x + "\n"))
  {
    if tools == [] {
      Empty(["]", x, ""]);
      TailText(x);
      Cut("]", "\n" + x + "\n");
    } else {
      TailLines(x, Rows(tools));
      ListIsRead(tools, "\n" + x + "\n");
    }
  }

  /** The lines of the section up to the one that opens the array. */
  function Opening(server: string): seq<string> {
    ["[" + server + "]",
     "url = \"http://127.0.0.1:7777/mcp\"",
     "bearer_token_env_var = \"MODELBOT_TOKEN\"",
     "startup_timeout_sec = 30",
     "tool_timeout_sec = 300",
     "enabled = true",
     GENERATED + WARNING,
     "enabled_tools = ["]
  }

  /**
   * Main result: the array that the rendered section opens holds every tool, once and in order, and one setting
   * follows it.
   */
  lemma EveryToolIsEnabled(server: string, tools: seq<string>) returns (list: string)
    requires forall name | name in tools :: Word(name)
    ensures Section(server, tools) == Join(Opening(server)) + "\n" + list
    ensures ReadArray(list) == Some((tools, "\n" + APPROVAL + "\n"))
  {
    list := Join(Rows(tools) + ["]", APPROVAL, ""]);
    RowsAreRead(tools, APPROVAL);
    OpeningThenList(server, tools, Rows(tools) + ["]", APPROVAL, ""]);
  }

  lemma OpeningThenList(server: string, tools: seq<string>, list: seq<string>)
    requires list == Rows(tools) + ["]", APPROVAL, ""]
    ensures Section(server, tools) == Join(Opening(server)) + "\n" + Join(list)
  {
    assert SectionLines(server, tools) == Opening(server) + list;
    JoinAppend(Opening(server), list);
  }
}
