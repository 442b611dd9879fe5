/**
 * The deliverables directory: how many files lie in it, and what a write may change, one call at a time
 * and over all calls.
 */
module OutFiles {
  import opened Seqs
  import opened Wrappers
  import opened Bytes

  /** What the process may do in a directory: list it, go through it, change what it holds. */
  datatype Access = Access(list: bool, search: bool, write: bool)

  const FULL := Access(true, true, true)

  /** Where a link leads: to nothing, to something in the deliverables directory, or out of it. */
  datatype Leads = Nowhere | Within | Without

  /** What a directory lists, in the order it lists it. A pipe is as a device. */
  datatype Node =
    | File(content: seq<byte>)
    | Link(leads: Leads)
    | Device
    | Dir(access: Access, entries: Entries)

  datatype Entries = Nil | Cons(name: string, node: Node, rest: Entries)

  // ---------- counting ----------

  /**
   * The entries that are not directories, of a directory that can be searched or not: those below directories
   * that cannot be opened and listed only when `hidden` ones count.
   */
  function Count(es: Entries, search: bool, hidden: bool): nat {
    match es
    case Nil => 0
    case Cons(_, node, rest) => CountNode(node, search, hidden) + Count(rest, search, hidden)
  }

  function CountNode(node: Node, opens: bool, hidden: bool): nat {
    match node
    case Dir(access, entries) => if hidden || (opens && access.list) then Count(entries, access.search, hidden) else 0
    case _ => 1
  }

  /** The files that the quota sees. */
  function Visible(es: Entries): nat {
    Count(es, true, false)
  }

  /** All the files there are. */
  function Total(es: Entries): nat {
    Count(es, true, true)
  }

  function CountStack(stack: seq<Node>): nat {
    if stack == [] then 0 else CountStack(stack[..|stack| - 1]) + CountNode(stack[|stack| - 1], true, false)
  }

  function Min(a: nat, b: nat): nat {
    if a <= b then a else b
  }

  function Weight(node: Node): nat {
    match node
    case Dir(_, entries) => 1 + WeightAll(entries)
    case _ => 0
  }

  function WeightAll(es: Entries): nat {
    match es
    case Nil => 0
    case Cons(_, node, rest) => Weight(node) + WeightAll(rest)
  }

  function WeightStack(stack: seq<Node>): nat {
    if stack == [] then 0 else WeightStack(stack[..|stack| - 1]) + Weight(stack[|stack| - 1])
  }

  /** A directory as its path finds it: it cannot be listed when its parent cannot be searched. */
  function Found(dir: Node, search: bool): Node
    requires dir.Dir?
  {
    Dir(Access(dir.access.list && search, dir.access.search, dir.access.write), dir.entries)
  }

  lemma Pushed(stack: seq<Node>, node: Node)
    ensures CountStack(stack + [node]) == CountStack(stack) + CountNode(node, true, false)
    ensures WeightStack(stack + [node]) == WeightStack(stack) + Weight(node)
  {
    Cut(stack, [node]);
  }

  lemma PushedFound(stack: seq<Node>, dir: Node, search: bool)
    requires dir.Dir?
    ensures CountStack(stack + [Found(dir, search)]) == CountStack(stack) + CountNode(dir, search, false)
    ensures WeightStack(stack + [Found(dir, search)]) == WeightStack(stack) + Weight(dir)
  {
    Pushed(stack, Found(dir, search));
  }

  /** The count, stopping at the cap: what it answers is the smaller of the two. */
  method CountFiles(dir: Node, cap: nat) returns (seen: nat)
    requires dir.Dir?
    ensures seen == Min(cap, CountNode(dir, true, false))
    ensures seen <= cap && seen <= CountNode(dir, true, false) && (seen < cap ==> seen == CountNode(dir, true, false))
  {
    ghost var total := CountNode(dir, true, false);
    seen := 0;
    var stack := [dir];
    Pushed([], dir);
    Empty([dir]);
    while stack != [] && seen < cap
      invariant forall node | node in stack :: node.Dir?
      invariant seen <= cap
      invariant seen < cap ==> seen + CountStack(stack) == total
      invariant seen == cap ==> cap <= total
      decreases WeightStack(stack)
    {
      var current := stack[|stack| - 1];
      assert current in stack;
      stack := stack[..|stack| - 1];
      if !current.access.list {
        continue;
      }
      var entries := current.entries;
      ghost var before := WeightStack(stack) + WeightAll(entries);
      while entries.Cons?
        invariant forall node | node in stack :: node.Dir?
        invariant seen < cap && seen + CountStack(stack) + Count(entries, current.access.search, false) == total
        invariant WeightStack(stack) + WeightAll(entries) == before
        decreases entries
      {
        if entries.node.Dir? {
          PushedFound(stack, entries.node, current.access.search);
          stack := stack + [Found(entries.node, current.access.search)];
        } else {
          seen := seen + 1;
          if seen >= cap {
            return;
          }
        }
        entries := entries.rest;
      }
    }
  }

  // ---------- paths ----------

  /** A path below the directory, as its components; the empty path names nothing. */
  type Path = seq<string>

  function Lookup(es: Entries, path: Path): Option<Node>
    decreases |path|, es
  {
    if path == [] || es.Nil? then None
    else if es.name != path[0] then Lookup(es.rest, path)
    else if |path| == 1 then Some(es.node)
    else if es.node.Dir? then Lookup(es.node.entries, path[1..])
    else None
  }

  function FileAt(es: Entries, path: Path): Option<seq<byte>> {
    match Lookup(es, path)
    case Some(File(content)) => Some(content)
    case _ => None
  }

  /**
   * Whether the process gets to the path: every directory on the way can be searched, and where something is
   * missing the directory it would be made in, `write` for the first one, can be written.
   */
  predicate CanOpen(es: Entries, path: Path, write: bool)
    decreases |path|, es
  {
    if path == [] then false
    else match es
      case Nil => write
      case Cons(name, node, rest) =>
        if name != path[0] then CanOpen(rest, path, write)
        else |path| == 1 || (node.Dir? && node.access.search && CanOpen(node.entries, path[1..], node.access.write))
  }

  /** The answer of an existence test, which looks through a link. */
  predicate Exists(es: Entries, path: Path) {
    && CanOpen(es, path, true)
    && match Lookup(es, path)
       case Some(Link(leads)) => leads != Nowhere
       case Some(_) => true
       case None => false
  }

  /** Whether the path meets a link that leads out of the deliverables directory. */
  predicate Escapes(es: Entries, path: Path)
    decreases |path|, es
  {
    path != [] && es.Cons? &&
      if es.name != path[0] then Escapes(es.rest, path)
      else || es.node == Link(Without)
           || (|path| > 1 && es.node.Dir? && es.node.access.search && Escapes(es.node.entries, path[1..]))
  }

  /** The path gets as far as its first n components: each before the last names a directory that can be searched. */
  predicate Reaches(es: Entries, path: Path, n: nat)
    requires n <= |path|
  {
    forall m | 0 < m < n ::
      match Lookup(es, path[..m]) {
        case Some(Dir(access, _)) => access.search
        case _ => false
      }
  }

  /** A link out of the directory stands on the path, as far as the path gets. */
  ghost predicate MeetsLinkOut(es: Entries, path: Path) {
    exists n | 0 < n <= |path| :: Reaches(es, path, n) && Lookup(es, path[..n]) == Some(Link(Without))
  }

  lemma LookupSteps(es: Entries, path: Path, n: nat)
    requires es.Cons? && 0 < n <= |path|
    ensures es.name != path[0] ==> Lookup(es, path[..n]) == Lookup(es.rest, path[..n])
    ensures es.name == path[0] && n == 1 ==> Lookup(es, path[..n]) == Some(es.node)
    ensures es.name == path[0] && n > 1 ==>
              Lookup(es, path[..n]) == if es.node.Dir? then Lookup(es.node.entries, path[1..][..n - 1]) else None
  {
    assert path[..n][0] == path[0] && path[..n][1..] == path[1..][..n - 1];
  }

  lemma {:induction false} EscapeIsMet(es: Entries, path: Path) returns (n: nat)
    requires Escapes(es, path)
    ensures 0 < n <= |path| && Reaches(es, path, n) && Lookup(es, path[..n]) == Some(Link(Without))
    decreases |path|, es
  {
    if es.name != path[0] {
      n := EscapeIsMet(es.rest, path);
      forall m | 0 < m <= n
        ensures Lookup(es, path[..m]) == Lookup(es.rest, path[..m])
      {
        LookupSteps(es, path, m);
      }
    } else {
      LookupSteps(es, path, 1);
      n := 1;
      if es.node != Link(Without) {
        var inner := EscapeIsMet(es.node.entries, path[1..]);
        n := inner + 1;
        forall m | 1 < m <= n
          ensures Lookup(es, path[..m]) == Lookup(es.node.entries, path[1..][..m - 1])
        {
          LookupSteps(es, path, m);
        }
      }
    }
  }

  lemma {:induction false} MetEscapes(es: Entries, path: Path, n: nat)
    requires 0 < n <= |path| && Reaches(es, path, n) && Lookup(es, path[..n]) == Some(Link(Without))
    ensures Escapes(es, path)
    decreases |path|, es
  {
    if es.Cons? && es.name != path[0] {
      forall m | 0 < m <= n
        ensures Lookup(es, path[..m]) == Lookup(es.rest, path[..m])
      {
        LookupSteps(es, path, m);
      }
      MetEscapes(es.rest, path, n);
    } else if es.Cons? {
      LookupSteps(es, path, 1);
      if n > 1 {
        forall m | 1 < m <= n
          ensures Lookup(es, path[..m]) ==
                  if es.node.Dir? then Lookup(es.node.entries, path[1..][..m - 1]) else None
        {
          LookupSteps(es, path, m);
        }
        MetInside(es, path, n);
        MetEscapes(es.node.entries, path[1..], n - 1);
      }
    }
  }

  lemma MetInside(es: Entries, path: Path, n: nat)
    requires es.Cons? && 1 < n <= |path| && es.name == path[0] && Reaches(es, path, n) && Lookup(es, path[..n]).Some?
    ensures es.node.Dir? && es.node.access.search && Reaches(es.node.entries, path[1..], n - 1)
  {
    LookupSteps(es, path, 1);
    LookupSteps(es, path, n);
    assert es.node.Dir? && es.node.access.search;
    forall m | 0 < m < n - 1
      ensures Lookup(es.node.entries, path[1..][..m]) == Lookup(es, path[..m + 1])
    {
      LookupSteps(es, path, m + 1);
    }
  }

  /** The check for escapes finds exactly the links out that the path meets. */
  lemma EscapesIff(es: Entries, path: Path)
    ensures Escapes(es, path) <==> MeetsLinkOut(es, path)
  {
    if Escapes(es, path) {
      var n := EscapeIsMet(es, path);
    }
    if n :| 0 < n <= |path| && Reaches(es, path, n) && Lookup(es, path[..n]) == Some(Link(Without)) {
      MetEscapes(es, path, n);
    }
  }

  /** Creating the missing directories of a path; fails where a component is no directory. */
  function MakeDirs(es: Entries, path: Path): Option<Entries>
    decreases |path|, es
  {
    if path == [] then Some(es)
    else match es
      case Nil =>
        var inner := MakeDirs(Nil, path[1..]);
        if inner.None? then None else Some(Cons(path[0], Dir(FULL, inner.value), Nil))
      case Cons(name, node, rest) =>
        if name != path[0] then
          var made := MakeDirs(rest, path);
          if made.None? then None else Some(Cons(name, node, made.value))
        else if !node.Dir? then None
        else
          var inner := MakeDirs(node.entries, path[1..]);
          if inner.None? then None else Some(Cons(name, Dir(node.access, inner.value), rest))
  }

  /** Giving a file its content, in directories that exist. */
  function Put(es: Entries, path: Path, content: seq<byte>): Entries
    requires path != []
    decreases |path|, es
  {
    match es
    case Nil => if |path| == 1 then Cons(path[0], File(content), Nil) else Nil
    case Cons(name, node, rest) =>
      if name != path[0] then Cons(name, node, Put(rest, path, content))
      else if |path| == 1 then Cons(name, File(content), rest)
      else if node.Dir? then Cons(name, Dir(node.access, Put(node.entries, path[1..], content)), rest)
      else es
  }

  /** Whether a file can be put at the path: its directory is there, and nothing else is in its place. */
  predicate Open(es: Entries, path: Path)
    decreases |path|, es
  {
    if path == [] then false
    else match es
      case Nil => |path| == 1
      case Cons(name, node, rest) =>
        if name != path[0] then Open(rest, path)
        else if |path| == 1 then node.File?
        else node.Dir? && Open(node.entries, path[1..])
  }

  lemma {:induction false} PutChangesOne(es: Entries, path: Path, content: seq<byte>, p: Path)
    requires Open(es, path)
    ensures FileAt(Put(es, path, content), p) == if p == path then Some(content) else FileAt(es, p)
    decreases |path|, es
  {
    if p != [] {
      match es
      case Nil =>
        assert p[0] == path[0] && |p| == 1 ==> p == path;
      case Cons(name, node, rest) =>
        if name != path[0] {
          PutChangesOne(rest, path, content, p);
        } else if |path| == 1 {
          assert p[0] == path[0] && |p| == 1 ==> p == path;
        } else {
          PutChangesOne(node.entries, path[1..], content, p[1..]);
          assert p[0] == path[0] && p[1..] == path[1..] ==> p == [p[0]] + p[1..] == path;
        }
    }
  }

  lemma {:induction false} PutCounts(es: Entries, path: Path, content: seq<byte>, search: bool)
    requires Open(es, path)
    ensures var put := Put(es, path, content); var more := if FileAt(es, path).None? then 1 else 0;
            && Count(put, search, true) == Count(es, search, true) + more
            && Count(es, search, false) <= Count(put, search, false) <= Count(es, search, false) + more
    decreases |path|, es
  {
    match es
    case Nil =>
    case Cons(name, node, rest) =>
      if name != path[0] {
        PutCounts(rest, path, content, search);
      } else if |path| > 1 {
        PutCounts(node.entries, path[1..], content, node.access.search);
      }
  }

  /** What is at the path decides whether it is open, once its directories are made. */
  lemma {:induction false} MadeIsOpen(es: Entries, path: Path)
    requires path != [] && MakeDirs(es, path[..|path| - 1]).Some?
    ensures var made := MakeDirs(es, path[..|path| - 1]).value;
            && (Open(made, path) <==> Lookup(made, path).None? || Lookup(made, path).value.File?)
            && (Lookup(es, path).Some? ==> made == es)
            && Lookup(made, path) == Lookup(es, path)
    decreases |path|, es
  {
    var dirs := path[..|path| - 1];
    if |path| > 1 {
      assert dirs[0] == path[0] && dirs[1..] == path[1..][..|path[1..]| - 1];
    }
    match es
    case Nil =>
      if |path| > 1 {
        MadeIsOpen(Nil, path[1..]);
      }
    case Cons(name, node, rest) =>
      if name != path[0] {
        assert path[..|path| - 1] == [] ==> MakeDirs(rest, dirs) == Some(rest);
        MadeIsOpen(rest, path);
      } else if |path| > 1 {
        MadeIsOpen(node.entries, path[1..]);
      }
  }

  lemma {:induction false} MadeKeepsFiles(es: Entries, dirs: Path, p: Path)
    requires MakeDirs(es, dirs).Some?
    ensures FileAt(MakeDirs(es, dirs).value, p) == FileAt(es, p)
    decreases |dirs|, es
  {
    if dirs != [] && p != [] {
      match es
      case Nil =>
        MadeKeepsFiles(Nil, dirs[1..], p[1..]);
        assert FileAt(Nil, p[1..]).None?;
      case Cons(name, node, rest) =>
        if name != dirs[0] {
          MadeKeepsFiles(rest, dirs, p);
        } else {
          MadeKeepsFiles(node.entries, dirs[1..], p[1..]);
        }
    }
  }

  lemma {:induction false} MadeKeepsCount(es: Entries, dirs: Path, search: bool, hidden: bool)
    requires MakeDirs(es, dirs).Some?
    ensures Count(MakeDirs(es, dirs).value, search, hidden) == Count(es, search, hidden)
    decreases |dirs|, es
  {
    if dirs != [] {
      match es
      case Nil =>
        MadeKeepsCount(Nil, dirs[1..], true, hidden);
      case Cons(name, node, rest) =>
        if name != dirs[0] {
          MadeKeepsCount(rest, dirs, search, hidden);
        } else {
          MadeKeepsCount(node.entries, dirs[1..], node.access.search, hidden);
        }
    }
  }

  // ---------- the tool ----------

  datatype Mode = Create | Overwrite | Append

  datatype Error = E_POLICY | E_LIMIT | E_IO

  datatype Caps = Caps(bytes: nat, files: nat)

  /** A path with a component "..", one that leads out of the directory otherwise, or one below it. */
  datatype Target = Dotted | Outside | Inside(path: Path)

  /** A call whose other arguments are well-formed. */
  datatype Call = Call(target: Target, body: seq<byte>, mode: Mode)

  function Before(es: Entries, path: Path): seq<byte> {
    if FileAt(es, path).Some? then FileAt(es, path).value else []
  }

  /** Why a call is refused, if it is, in the order of the checks. */
  function Refusal(es: Entries, call: Call, caps: Caps): Option<Error> {
    if call.target.Dotted? then Some(E_POLICY)
    else if |call.body| > caps.bytes then Some(E_LIMIT)
    else if call.target.Outside? || call.target.path == [] then Some(E_POLICY)
    else
      var path := call.target.path;
      if Escapes(es, path) then Some(E_POLICY)
      else if Exists(es, path) && call.mode.Create? then Some(E_POLICY)
      else if !Exists(es, path) && Visible(es) >= caps.files then Some(E_LIMIT)
      else if MakeDirs(es, path[..|path| - 1]).None? || !CanOpen(es, path, true) then Some(E_IO)
      else if Lookup(es, path) == Some(Device) then Some(E_POLICY)
      else if Lookup(es, path).Some? && !Lookup(es, path).value.File? then Some(E_IO)
      else if call.mode.Append? && |Before(es, path)| + |call.body| > caps.bytes then Some(E_LIMIT)
      else None
  }

  /** What an accepted call leaves in its file. */
  function Content(es: Entries, call: Call): seq<byte>
    requires call.target.Inside?
  {
    if call.mode.Append? then Before(es, call.target.path) + call.body else call.body
  }

  /** The directory after a call. */
  function Written(es: Entries, call: Call, caps: Caps): Entries {
    if Refusal(es, call, caps).Some? then es
    else
      var path := call.target.path;
      Put(MakeDirs(es, path[..|path| - 1]).value, path, Content(es, call))
  }

  lemma {:induction false} PutTwice(es: Entries, path: Path, first: seq<byte>, second: seq<byte>)
    requires Open(es, path)
    ensures Put(Put(es, path, first), path, second) == Put(es, path, second)
    decreases |path|, es
  {
    match es
    case Nil =>
    case Cons(name, node, rest) =>
      if name != path[0] {
        PutTwice(rest, path, first, second);
      } else if |path| > 1 {
        PutTwice(node.entries, path[1..], first, second);
      }
  }

  class OutDir {
    const caps: Caps
    var entries: Entries

    constructor (caps: Caps, entries: Entries)
      ensures this.caps == caps && this.entries == entries
    {
      this.caps, this.entries := caps, entries;
    }

    /** Writing a file: checks, then directories, then opening it and writing at its end. */
    method WriteFile(call: Call) returns (written: Result<nat, Error>)
      modifies this
      ensures entries == Written(old(entries), call, caps)
      ensures match Refusal(old(entries), call, caps)
              case Some(error) => written == Err(error)
              case None => written == Ok(|Content(old(entries), call)|)
    {
      if call.target.Dotted? {
        return Err(E_POLICY);
      }
      if |call.body| > caps.bytes {
        return Err(E_LIMIT);
      }
      if call.target.Outside? || call.target.path == [] {
        return Err(E_POLICY);
      }
      var path := call.target.path;
      if Escapes(entries, path) {
        return Err(E_POLICY);
      }
      var existed := Exists(entries, path);
      if existed && call.mode.Create? {
        return Err(E_POLICY);
      }
      if !existed {
        var seen := CountFiles(Dir(FULL, entries), caps.files);
        if seen >= caps.files {
          return Err(E_LIMIT);
        }
      }
      var made := MakeDirs(entries, path[..|path| - 1]);
      if made.None? || !CanOpen(entries, path, true) {
        return Err(E_IO);
      }
      ghost var es := entries;
      MadeIsOpen(es, path);
      MadeKeepsFiles(es, path[..|path| - 1], path);
      entries := made.value;
      var found := Lookup(entries, path);
      if found == Some(Device) {
        return Err(E_POLICY);
      }
      if found.Some? && !found.value.File? {
        return Err(E_IO);
      }
      if found.None? || !call.mode.Append? {
        PutChangesOne(entries, path, [], path);
        PutTwice(entries, path, [], Content(es, call));
        entries := Put(entries, path, []);
      }
      var before := Before(entries, path);
      if |before| + |call.body| > caps.bytes {
        return Err(E_LIMIT);
      }
      assert before + call.body == Content(es, call);
      entries := Put(entries, path, before + call.body);
      return Ok(|before| + |call.body|);
    }
  }

  // ---------- what calls keep ----------

  /**
   * Main result for one call. Refused, it changes nothing at all. Accepted, it gives its file the content it
   * should have, within the limit, leaves every other file as it was, and adds one file when the file is new.
   */
  lemma WriteIsExact(es: Entries, call: Call, caps: Caps, p: Path)
    ensures var after, refusal := Written(es, call, caps), Refusal(es, call, caps);
            && (refusal.Some? ==> after == es)
            && (refusal.None? ==>
                  var path := call.target.path; var more := if FileAt(es, path).None? then 1 else 0;
                  && FileAt(after, p) == (if p == path then Some(Content(es, call)) else FileAt(es, p))
                  && |Content(es, call)| <= caps.bytes
                  && Total(after) == Total(es) + more
                  && Visible(es) <= Visible(after) <= Visible(es) + more
                  && (more == 1 ==> Visible(es) < caps.files))
  {
    if Refusal(es, call, caps).None? {
      var path := call.target.path;
      var dirs := path[..|path| - 1];
      var made := MakeDirs(es, dirs).value;
      MadeIsOpen(es, path);
      MadeKeepsFiles(es, dirs, p);
      MadeKeepsCount(es, dirs, true, true);
      MadeKeepsCount(es, dirs, true, false);
      PutChangesOne(made, path, Content(es, call), p);
      PutCounts(made, path, Content(es, call), true);
    }
  }

  /** When a call is accepted, whatever the order of the checks: what is at its path decides what it must meet. */
  lemma AcceptedIff(es: Entries, call: Call, caps: Caps)
    ensures Refusal(es, call, caps).None? <==>
            && call.target.Inside? && call.target.path != [] && |call.body| <= caps.bytes
            && !Escapes(es, call.target.path) && CanOpen(es, call.target.path, true)
            && MakeDirs(es, call.target.path[..|call.target.path| - 1]).Some?
            && match Lookup(es, call.target.path) {
                 case None => Visible(es) < caps.files
                 case Some(File(held)) =>
                   call.mode.Overwrite? || (call.mode.Append? && |held + call.body| <= caps.bytes)
                 case Some(_) => false
               }
  {
  }

  /** The bytes of an accepted call: after those of the file when it is to append, and in their place otherwise. */
  lemma AcceptedBytes(es: Entries, call: Call, caps: Caps)
    requires Refusal(es, call, caps).None?
    ensures var path, after := call.target.path, Written(es, call, caps);
            && FileAt(after, path).Some? && |Content(es, call)| == |FileAt(after, path).value|
            && match FileAt(es, path)
               case None => FileAt(after, path).value == call.body
               case Some(held) =>
                 && !call.mode.Create?
                 && (call.mode.Append? ==> FileAt(after, path).value == held + call.body)
                 && (call.mode.Overwrite? ==> FileAt(after, path).value == call.body)
  {
    WriteIsExact(es, call, caps, call.target.path);
    Empty(call.body);
  }

  /** What each error tells its caller. */
  lemma ErrorsTell(es: Entries, call: Call, caps: Caps)
    ensures Refusal(es, call, caps) == Some(E_LIMIT) ==>
              || |call.body| > caps.bytes
              || (Lookup(es, call.target.path).None? && Visible(es) >= caps.files)
              || !CanOpen(es, call.target.path, true)
              || Lookup(es, call.target.path) == Some(Link(Nowhere))
              || (call.mode.Append? && |Before(es, call.target.path) + call.body| > caps.bytes)
    ensures Refusal(es, call, caps) == Some(E_POLICY) ==>
              || !call.target.Inside? || call.target.path == []
              || Escapes(es, call.target.path)
              || (CanOpen(es, call.target.path, true)
                  && (call.mode.Create? || Lookup(es, call.target.path) == Some(Device))
                  && Lookup(es, call.target.path).Some?)
    ensures Refusal(es, call, caps) == Some(E_IO) ==>
              || MakeDirs(es, call.target.path[..|call.target.path| - 1]).None?
              || !CanOpen(es, call.target.path, true)
              || !(Lookup(es, call.target.path).Some? && Lookup(es, call.target.path).value.File?)
    ensures call.target.Dotted? ==> Refusal(es, call, caps) == Some(E_POLICY)
    ensures !call.target.Dotted? && |call.body| > caps.bytes ==> Refusal(es, call, caps) == Some(E_LIMIT)
  {
  }

  function AfterAll(es: Entries, calls: seq<Call>, caps: Caps): Entries {
    if calls == [] then es else Written(AfterAll(es, calls[..|calls| - 1], caps), calls[|calls| - 1], caps)
  }

  function Max(a: nat, b: nat): nat {
    if a >= b then a else b
  }

  /**
   * Main result over any calls, from any directory: the count never passes the larger of its cap and what
   * was there before, and every file larger than its cap is one that was there before, unchanged.
   */
  lemma {:induction false} QuotaHolds(es: Entries, calls: seq<Call>, caps: Caps, p: Path)
    ensures var after := AfterAll(es, calls, caps);
            && Visible(after) <= Max(Visible(es), caps.files)
            && (FileAt(after, p).Some? && |FileAt(after, p).value| > caps.bytes ==> FileAt(after, p) == FileAt(es, p))
  {
    if calls != [] {
      var front, call := calls[..|calls| - 1], calls[|calls| - 1];
      QuotaHolds(es, front, caps, p);
      WriteIsExact(AfterAll(es, front, caps), call, caps, p);
    }
  }

  // ---------- directories in which new files are not seen ----------

  /**
   * Somewhere the process can add a file that the quota does not see: a directory that can be searched and
   * written, reached through directories that can be searched, one of them or itself not listed.
   */
  predicate HidesRoom(es: Entries, hidden: bool) {
    match es
    case Nil => false
    case Cons(_, node, rest) => RoomIn(node, hidden) || HidesRoom(rest, hidden)
  }

  predicate RoomIn(node: Node, hidden: bool) {
    match node
    case Dir(access, entries) =>
      access.search && (((hidden || !access.list) && access.write) || HidesRoom(entries, hidden || !access.list))
    case _ => false
  }

  lemma {:induction false} MadeHidesNoRoom(es: Entries, path: Path, hidden: bool, write: bool)
    requires CanOpen(es, path, write) && MakeDirs(es, path[..|path| - 1]).Some?
    requires !HidesRoom(es, hidden) && (hidden ==> !write)
    ensures var made := MakeDirs(es, path[..|path| - 1]).value;
            !HidesRoom(made, hidden) && CanOpen(made, path, write)
    decreases |path|, es
  {
    var dirs := path[..|path| - 1];
    if |path| > 1 {
      assert dirs[0] == path[0] && dirs[1..] == path[1..][..|path[1..]| - 1];
    }
    match es
    case Nil =>
      if |path| > 1 {
        MadeHidesNoRoom(Nil, path[1..], hidden, true);
      }
    case Cons(name, node, rest) =>
      if name != path[0] {
        assert dirs == [] ==> MakeDirs(rest, dirs) == Some(rest);
        MadeHidesNoRoom(rest, path, hidden, write);
      } else if |path| > 1 {
        MadeHidesNoRoom(node.entries, path[1..], hidden || !node.access.list, node.access.write);
      }
  }

  /** Where no room is hidden, what is added is seen, and still no room is hidden. */
  lemma {:induction false} PutIsSeen(es: Entries, path: Path, content: seq<byte>, hidden: bool, write: bool)
    requires Open(es, path) && CanOpen(es, path, write) && !HidesRoom(es, hidden) && (hidden ==> !write)
    ensures var put := Put(es, path, content);
            && !HidesRoom(put, hidden) && (hidden ==> FileAt(es, path).Some?)
            && (!hidden ==> Count(put, true, false) == Count(es, true, false) + if FileAt(es, path).None? then 1 else 0)
    decreases |path|, es
  {
    match es
    case Nil =>
    case Cons(name, node, rest) =>
      if name != path[0] {
        PutIsSeen(rest, path, content, hidden, write);
      } else if |path| > 1 {
        PutIsSeen(node.entries, path[1..], content, hidden || !node.access.list, node.access.write);
      }
  }

  /** Then the files that are not seen stay as many as they were. */
  lemma {:induction false} HiddenStay(es: Entries, calls: seq<Call>, caps: Caps)
    requires !HidesRoom(es, false)
    ensures var after := AfterAll(es, calls, caps);
            !HidesRoom(after, false) && Total(after) - Visible(after) == Total(es) - Visible(es)
  {
    if calls != [] {
      var front, call := calls[..|calls| - 1], calls[|calls| - 1];
      var before := AfterAll(es, front, caps);
      HiddenStay(es, front, caps);
      if Refusal(before, call, caps).None? {
        var path := call.target.path;
        var dirs := path[..|path| - 1];
        MadeHidesNoRoom(before, path, false, true);
        MadeIsOpen(before, path);
        MadeKeepsFiles(before, dirs, path);
        MadeKeepsCount(before, dirs, true, false);
        PutIsSeen(MakeDirs(before, dirs).value, path, Content(before, call), false, true);
        WriteIsExact(before, call, caps, path);
      }
    }
  }

  /** Every directory can be listed and searched. */
  predicate AllReadable(es: Entries) {
    match es
    case Nil => true
    case Cons(_, node, rest) =>
      && (node.Dir? ==> node.access.list && node.access.search && AllReadable(node.entries))
      && AllReadable(rest)
  }

  lemma {:induction false} ReadableCounts(es: Entries)
    requires AllReadable(es)
    ensures Count(es, true, true) == Count(es, true, false) && !HidesRoom(es, false)
  {
    match es
    case Nil =>
    case Cons(_, node, rest) =>
      ReadableCounts(rest);
      if node.Dir? {
        ReadableCounts(node.entries);
      }
  }

  lemma {:induction false} MadeReadable(es: Entries, dirs: Path)
    requires AllReadable(es) && MakeDirs(es, dirs).Some?
    ensures AllReadable(MakeDirs(es, dirs).value)
    decreases |dirs|, es
  {
    if dirs != [] {
      match es
      case Nil =>
        MadeReadable(Nil, dirs[1..]);
      case Cons(name, node, rest) =>
        if name != dirs[0] {
          MadeReadable(rest, dirs);
        } else {
          MadeReadable(node.entries, dirs[1..]);
        }
    }
  }

  lemma {:induction false} PutReadable(es: Entries, path: Path, content: seq<byte>)
    requires AllReadable(es) && path != []
    ensures AllReadable(Put(es, path, content))
    decreases |path|, es
  {
    match es
    case Nil =>
    case Cons(name, node, rest) =>
      if name != path[0] {
        PutReadable(rest, path, content);
      } else if |path| > 1 && node.Dir? {
        PutReadable(node.entries, path[1..], content);
      }
  }

  /** Where every directory can be listed and searched, it stays so, and the cap bounds all the files there are. */
  lemma {:induction false} QuotaIsTotal(es: Entries, calls: seq<Call>, caps: Caps)
    requires AllReadable(es)
    ensures var after := AfterAll(es, calls, caps);
            AllReadable(after) && Total(after) == Visible(after) && Total(after) <= Max(Total(es), caps.files)
  {
    if calls != [] {
      var front, call := calls[..|calls| - 1], calls[|calls| - 1];
      var before := AfterAll(es, front, caps);
      QuotaIsTotal(es, front, caps);
      if Refusal(before, call, caps).None? {
        var path := call.target.path;
        MadeReadable(before, path[..|path| - 1]);
        PutReadable(MakeDirs(before, path[..|path| - 1]).value, path, Content(before, call));
      }
    }
    QuotaHolds(es, calls, caps, []);
    ReadableCounts(es);
    ReadableCounts(AfterAll(es, calls, caps));
  }

  // ---------- when the cap bounds all files ----------

  /** No directory lists a name twice. */
  predicate DistinctNames(es: Entries) {
    match es
    case Nil => true
    case Cons(name, node, rest) =>
      Lookup(rest, [name]).None? && (node.Dir? ==> DistinctNames(node.entries)) && DistinctNames(rest)
  }

  /** The path leads to a directory with hidden room. */
  predicate RoomAt(es: Entries, dir: Path, hidden: bool)
    decreases |dir|, es
  {
    dir != [] && es.Cons? &&
      if es.name != dir[0] then RoomAt(es.rest, dir, hidden)
      else
        && es.node.Dir? && es.node.access.search
        && var below := hidden || !es.node.access.list;
           if |dir| == 1 then below && es.node.access.write else RoomAt(es.node.entries, dir[1..], below)
  }

  lemma {:induction false} OtherNames(es: Entries, name: string, dir: Path, hidden: bool)
    requires dir != [] && dir[0] == name && Lookup(es, [name]).None?
    ensures !RoomAt(es, dir, hidden)
  {
    match es
    case Nil =>
    case Cons(_, _, rest) =>
      OtherNames(rest, name, dir, hidden);
  }

  lemma {:induction false} SomeRoom(es: Entries, hidden: bool) returns (dir: Path)
    requires DistinctNames(es) && HidesRoom(es, hidden)
    ensures RoomAt(es, dir, hidden)
  {
    match es
    case Cons(name, node, rest) =>
      if RoomIn(node, hidden) {
        var below := hidden || !node.access.list;
        if below && node.access.write {
          dir := [name];
        } else {
          var inner := SomeRoom(node.entries, below);
          dir := [name] + inner;
          assert dir[1..] == inner;
        }
      } else {
        dir := SomeRoom(rest, hidden);
        if dir[0] == name {
          OtherNames(rest, name, dir, hidden);
        }
      }
  }

  /** Room at a path is a directory there that takes any new name. */
  lemma {:induction false} RoomOpens(es: Entries, dir: Path, hidden: bool, name: string, write: bool)
    requires RoomAt(es, dir, hidden)
    ensures Lookup(es, dir).Some? && Lookup(es, dir).value.Dir? && MakeDirs(es, dir) == Some(es)
    ensures Lookup(es, dir + [name]) == Lookup(Lookup(es, dir).value.entries, [name])
    ensures Lookup(es, dir + [name]).None? ==> CanOpen(es, dir + [name], write) && !Escapes(es, dir + [name])
    decreases |dir|, es
  {
    assert (dir + [name])[1..] == dir[1..] + [name];
    if es.name != dir[0] {
      RoomOpens(es.rest, dir, hidden, name, write);
    } else if |dir| > 1 {
      RoomOpens(es.node.entries, dir[1..], hidden || !es.node.access.list, name, es.node.access.write);
    } else {
      assert dir[1..] + [name] == [name];
      assert MakeDirs(es.node.entries, dir[1..]) == Some(es.node.entries);
      FreshOpens(es.node.entries, name, true);
    }
  }

  lemma {:induction false} FreshOpens(es: Entries, name: string, write: bool)
    ensures Lookup(es, [name]).None? && write ==> CanOpen(es, [name], write) && !Escapes(es, [name])
  {
    if es.Cons? {
      FreshOpens(es.rest, name, write);
    }
  }

  /** A file put into hidden room leaves it so, and the count as it was. */
  lemma {:induction false} PutHidden(es: Entries, dir: Path, hidden: bool, name: string, content: seq<byte>)
    requires RoomAt(es, dir, hidden)
    ensures var put := Put(es, dir + [name], content);
            RoomAt(put, dir, hidden) && (!hidden ==> Count(put, true, false) == Count(es, true, false))
    decreases |dir|, es
  {
    assert (dir + [name])[1..] == dir[1..] + [name];
    if es.name != dir[0] {
      PutHidden(es.rest, dir, hidden, name, content);
    } else if |dir| > 1 {
      PutHidden(es.node.entries, dir[1..], hidden || !es.node.access.list, name, content);
    }
  }

  /** A name that is not listed. */
  function Fresh(es: Entries): (name: string)
    ensures Lookup(es, [name]).None?
  {
    assert forall name: string :: |name| > Longest(es) ==> Lookup(es, [name]).None?;
    seq(Longest(es) + 1, _ => 'x')
  }

  function Longest(es: Entries): (n: nat)
    ensures forall name :: Lookup(es, [name]).Some? ==> |name| <= n
  {
    match es
    case Nil => 0
    case Cons(name, _, rest) => if |name| > Longest(rest) then |name| else Longest(rest)
  }

  function HiddenCall(es: Entries, dir: Path): Call
    requires RoomAt(es, dir, false)
  {
    RoomOpens(es, dir, false, "", true);
    Call(Inside(dir + [Fresh(Lookup(es, dir).value.entries)]), [], Overwrite)
  }

  /**
   * Hidden room, wherever it is, takes any number of files: a new one is accepted as long as the visible files
   * are fewer than the cap, and these do not become more.
   */
  lemma UnlistedEscapes(es: Entries, dir: Path, caps: Caps)
    requires RoomAt(es, dir, false) && Visible(es) < caps.files
    ensures var call := HiddenCall(es, dir); var after := Written(es, call, caps);
            && Refusal(es, call, caps).None? && RoomAt(after, dir, false)
            && Total(after) == Total(es) + 1 && Visible(after) == Visible(es)
  {
    var call := HiddenCall(es, dir);
    var path := call.target.path;
    var name := path[|dir|];
    assert path == dir + [name] && path[..|path| - 1] == dir;
    RoomOpens(es, dir, false, name, true);
    WriteIsExact(es, call, caps, path);
    PutHidden(es, dir, false, name, []);
  }

  lemma {:induction false} ManyEscape(es: Entries, dir: Path, caps: Caps, n: nat) returns (calls: seq<Call>)
    requires RoomAt(es, dir, false) && Visible(es) < caps.files
    ensures var after := AfterAll(es, calls, caps);
            RoomAt(after, dir, false) && Total(after) == Total(es) + n && Visible(after) == Visible(es)
  {
    calls := [];
    if n > 0 {
      var front := ManyEscape(es, dir, caps, n - 1);
      var before := AfterAll(es, front, caps);
      UnlistedEscapes(before, dir, caps);
      AfterOneMore(es, front, HiddenCall(before, dir), caps);
      calls := front + [HiddenCall(before, dir)];
    }
  }

  lemma {:induction false} PutOnTop(es: Entries, name: string)
    requires Lookup(es, [name]).None?
    ensures Count(Put(es, [name], []), true, false) == Count(es, true, false) + 1
  {
    if es.Cons? {
      PutOnTop(es.rest, name);
    }
  }

  /** A file with a new name on top is accepted as long as the visible ones are fewer than the cap. */
  lemma TopAccepts(es: Entries, name: string, caps: Caps)
    requires Lookup(es, [name]).None? && Visible(es) < caps.files
    ensures var call := Call(Inside([name]), [], Overwrite); var after := Written(es, call, caps);
            && Refusal(es, call, caps).None?
            && Total(after) == Total(es) + 1 && Visible(after) == Visible(es) + 1
  {
    var call := Call(Inside([name]), [], Overwrite);
    assert [name][..0] == [];
    FreshOpens(es, name, true);
    PutOnTop(es, name);
    WriteIsExact(es, call, caps, [name]);
  }

  lemma AfterOneMore(es: Entries, calls: seq<Call>, call: Call, caps: Caps)
    ensures AfterAll(es, calls + [call], caps) == Written(AfterAll(es, calls, caps), call, caps)
  {
    Cut(calls, [call]);
  }

  /** Files are accepted on top until the visible ones reach the cap. */
  lemma {:induction false} FillUp(es: Entries, caps: Caps, n: nat) returns (calls: seq<Call>)
    requires Visible(es) + n <= caps.files
    ensures var after := AfterAll(es, calls, caps);
            Total(after) == Total(es) + n && Visible(after) == Visible(es) + n
  {
    calls := [];
    if n > 0 {
      var front := FillUp(es, caps, n - 1);
      var before := AfterAll(es, front, caps);
      var call := Call(Inside([Fresh(before)]), [], Overwrite);
      TopAccepts(before, Fresh(before), caps);
      AfterOneMore(es, front, call, caps);
      calls := front + [call];
    }
  }

  /** Once the visible files reach the cap, no call adds a file anywhere. */
  lemma {:induction false} FullStaysFull(es: Entries, calls: seq<Call>, caps: Caps)
    requires Visible(es) >= caps.files
    ensures var after := AfterAll(es, calls, caps);
            Total(after) == Total(es) && Visible(after) >= caps.files
  {
    if calls != [] {
      var front, call := calls[..|calls| - 1], calls[|calls| - 1];
      FullStaysFull(es, front, caps);
      WriteIsExact(AfterAll(es, front, caps), call, caps, []);
    }
  }

  /** No calls take all the files there are past the cap, or past what was there before. */
  ghost predicate TotalBounded(es: Entries, caps: Caps) {
    forall calls :: Total(AfterAll(es, calls, caps)) <= Max(Total(es), caps.files)
  }

  /**
   * Main result: the cap bounds all the files there are, over any calls, exactly when the visible files have
   * reached the cap already, or all files are visible and no room for others is hidden.
   */
  lemma TotalBoundedIff(es: Entries, caps: Caps)
    requires DistinctNames(es)
    ensures TotalBounded(es, caps) <==>
            Visible(es) >= caps.files || (Total(es) == Visible(es) && !HidesRoom(es, false))
  {
    if Visible(es) >= caps.files {
      forall calls
        ensures Total(AfterAll(es, calls, caps)) <= Max(Total(es), caps.files)
      {
        FullStaysFull(es, calls, caps);
      }
    } else if HidesRoom(es, false) {
      var dir := SomeRoom(es, false);
      var calls := ManyEscape(es, dir, caps, caps.files + 1);
      assert Total(AfterAll(es, calls, caps)) > Max(Total(es), caps.files);
    } else if Total(es) == Visible(es) {
      forall calls
        ensures Total(AfterAll(es, calls, caps)) <= Max(Total(es), caps.files)
      {
        HiddenStay(es, calls, caps);
        QuotaHolds(es, calls, caps, []);
      }
    } else {
      VisibleIsLess(es, true);
      var calls := FillUp(es, caps, caps.files - Visible(es));
      assert Total(AfterAll(es, calls, caps)) > Max(Total(es), caps.files);
    }
  }

  /** From an empty directory the cap bounds all the files that any calls leave. */
  lemma QuotaFromEmpty(calls: seq<Call>, caps: Caps)
    ensures Total(AfterAll(Nil, calls, caps)) <= caps.files && TotalBounded(Nil, caps)
  {
    QuotaIsTotal(Nil, calls, caps);
    TotalBoundedIff(Nil, caps);
  }

  lemma {:induction false} VisibleIsLess(es: Entries, search: bool)
    ensures Count(es, search, false) <= Count(es, search, true)
  {
    if es.Cons? {
      VisibleIsLess(es.rest, search);
      if es.node.Dir? {
        VisibleIsLess(es.node.entries, es.node.access.search);
      }
    }
  }
}
