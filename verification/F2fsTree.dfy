/** The indented listing of a file system tree, and the parser that maps every path to its inode. */
module F2fsTree {
  import opened Common

  // ----- one line -----

  /** A listed node: its depth, name and inode number. */
  datatype Entry = Entry(depth: nat, name: string, ino: nat)

  const BAR := "|   "
  const BRANCH := "|-- "
  const MARK := " <ino = 0x"

  predicate IsHex(c: char) {
    '0' <= c <= '9' || 'a' <= c <= 'f'
  }

  function HexDigit(c: char): (r: nat)
    requires IsHex(c)
    ensures r < 16
  {
    if c <= '9' then c as int - '0' as int else c as int - 'a' as int + 10
  }

  function HexChar(d: nat): (r: char)
    requires d < 16
    ensures IsHex(r) && HexDigit(r) == d
  {
    "0123456789abcdef"[d]
  }

  predicate AllHex(s: string) {
    forall i :: 0 <= i < |s| ==> IsHex(s[i])
  }

  function HexValue(s: string): nat
    requires AllHex(s)
  {
    if s == "" then 0 else 16 * HexValue(s[..|s| - 1]) + HexDigit(s[|s| - 1])
  }

  function Hex(n: nat): (r: string)
    ensures r != "" && AllHex(r) && HexValue(r) == n
  {
    if n < 16 then [HexChar(n)] else Hex(n / 16) + [HexChar(n % 16)]
  }

  /** Hexadecimal digits stand for sixteens and so on from the right. */
  lemma {:induction false} HexSplits(a: string, b: string)
    requires AllHex(a) && AllHex(b)
    ensures AllHex(a + b) && HexValue(a + b) == HexValue(a) * Pow16(|b|) + HexValue(b)
  {
    if b == "" {
      assert a + b == a;
    } else {
      var front, last := b[..|b| - 1], b[|b| - 1];
      assert (a + b)[..|a + b| - 1] == a + front;
      HexSplits(a, front);
      Distribute(HexValue(a), Pow16(|front|), HexValue(front));
    }
  }

  lemma Distribute(v: nat, p: nat, f: nat)
    ensures 16 * (v * p + f) == v * (16 * p) + 16 * f
  {
  }

  lemma HexDigits(d: nat)
    requires d < 16
    ensures HexValue(["0123456789abcdef"[d]]) == d
  {
    assert HexDigit(HexChar(d)) == d;
  }

  function Pow16(k: nat): nat {
    if k == 0 then 1 else 16 * Pow16(k - 1)
  }

  function HexRun(s: string): (r: string)
    ensures r <= s && AllHex(r) && (|r| < |s| ==> !IsHex(s[|r|]))
  {
    if s == "" || !IsHex(s[0]) then "" else [s[0]] + HexRun(s[1..])
  }

  /** How many times the bar opens the line. */
  function Bars(line: string): nat {
    if BAR <= line then 1 + Bars(line[4..]) else 0
  }

  predicate MarkAt(s: string) {
    MARK <= s && |s| > 10 && IsHex(s[10])
  }

  /** The shortest name before a mark. */
  function NameLength(s: string): (r: Option<nat>)
    ensures r.Some? ==> r.value <= |s| && MarkAt(s[r.value..])
    ensures r.Some? ==> forall i :: 0 <= i < r.value ==> !MarkAt(s[i..])
    ensures r.None? ==> forall i :: 0 <= i <= |s| ==> !MarkAt(s[i..])
  {
    if MarkAt(s) then Some(0)
    else if s == "" then None
    else
      match NameLength(s[1..])
      case None => assert forall i :: 1 <= i <= |s| ==> s[i..] == s[1..][i - 1..]; None
      case Some(n) => assert forall i :: 1 <= i <= n + 1 ==> s[i..] == s[1..][i - 1..]; Some(n + 1)
  }

  /** The regular expression applied to one line: bars, a branch, the shortest name, an inode. */
  function Match(line: string): Option<Entry> {
    var depth := Bars(line);
    assert 4 * depth <= |line| by { BarsFit(line); }
    var rest := line[4 * depth..];
    if !(BRANCH <= rest) then None
    else
      var body := rest[4..];
      match NameLength(body)
      case None => None
      case Some(n) => Some(Entry(depth, body[..n], HexValue(HexRun(body[n + 10..]))))
  }

  lemma BarsFit(line: string)
    ensures 4 * Bars(line) <= |line|
  {
  }

  function Indent(depth: nat): (r: string)
    ensures |r| == 4 * depth
  {
    if depth == 0 then "" else BAR + Indent(depth - 1)
  }

  /** How the tree printer writes a node; more text may follow on the line. */
  function Line(e: Entry, more: string): string {
    Indent(e.depth) + (BRANCH + (e.name + (MARK + (Hex(e.ino) + more))))
  }

  /** No inode mark inside the name: no mark followed by a hexadecimal digit. */
  ghost predicate Printable(name: string) {
    forall i :: 0 <= i <= |name| ==> !MarkAt(name[i..])
  }

  lemma {:induction false} BarsOfLine(depth: nat, rest: string)
    requires BRANCH <= rest
    ensures Bars(Indent(depth) + rest) == depth
    ensures (Indent(depth) + rest)[4 * depth..] == rest
  {
    var line := Indent(depth) + rest;
    if depth == 0 {
      assert line == rest;
      assert rest[1] == BRANCH[1];
    } else {
      assert line == BAR + (Indent(depth - 1) + rest);
      assert line[4..] == Indent(depth - 1) + rest;
      BarsOfLine(depth - 1, rest);
    }
  }

  lemma NameOfLine(name: string, tail: string)
    requires Printable(name) && tail != "" && IsHex(tail[0])
    ensures NameLength(name + (MARK + tail)) == Some(|name|)
  {
    var s := name + (MARK + tail);
    assert s[|name|..] == MARK + tail;
    assert (MARK + tail)[10] == tail[0];
    assert MarkAt(s[|name|..]);
    forall i | 0 <= i < |name|
      ensures !MarkAt(s[i..])
    {
      NoEarlyMark(name, tail, i);
    }
  }

  /** The mark has no border, so it cannot start inside a printable name. */
  lemma NoEarlyMark(name: string, tail: string, i: nat)
    requires Printable(name) && i < |name|
    ensures !MarkAt((name + (MARK + tail))[i..])
  {
    var s, k := (name + (MARK + tail))[i..], |name| - i;
    if k > 10 {
      assert s[..11] == name[i..][..11];
    } else {
      assert s[k] == ' ' && (k < 10 ==> s[k + 1] == '<');
    }
  }

  /** A mark inside the name is found first. */
  lemma EarlyMark(name: string, tail: string)
    requires !Printable(name)
    ensures NameLength(name + (MARK + tail)).Some? && NameLength(name + (MARK + tail)).value < |name|
  {
    var i :| 0 <= i <= |name| && MarkAt(name[i..]);
    var s := name + (MARK + tail);
    assert s[i..][..11] == name[i..][..11];
    assert MarkAt(s[i..]);
  }

  /** A printed line is read back exactly when the name holds no inode mark. */
  lemma ReadBackExactly(e: Entry, more: string)
    requires more == "" || !IsHex(more[0])
    ensures Match(Line(e, more)) == Some(e) <==> Printable(e.name)
  {
    if Printable(e.name) {
      LineRoundTrip(e, more);
    } else {
      var body := e.name + (MARK + (Hex(e.ino) + more));
      BarsOfLine(e.depth, BRANCH + body);
      EarlyMark(e.name, Hex(e.ino) + more);
      MatchOfParts(Line(e, more), e.depth, body, NameLength(body).value);
    }
  }

  lemma LineRoundTrip(e: Entry, more: string)
    requires Printable(e.name) && (more == "" || !IsHex(more[0]))
    ensures Match(Line(e, more)) == Some(e)
  {
    var hex := Hex(e.ino);
    var body := e.name + (MARK + (hex + more));
    BarsOfLine(e.depth, BRANCH + body);
    NameOfLine(e.name, hex + more);
    MatchOfParts(Line(e, more), e.depth, body, |e.name|);
    PartsOfBody(e.name, hex + more);
    RunOfHex(hex, more);
  }

  /** A line of such a listing: bars for the depth, a branch, the name, the inode number. */
  lemma LineText(e: Entry, more: string)
    ensures Line(e, more) == Indent(e.depth) + "|-- " + e.name + " <ino = 0x" + Hex(e.ino) + more
    ensures Indent(0) == "" && Indent(e.depth + 1) == "|   " + Indent(e.depth)
  {
    Grouped(Indent(e.depth), BRANCH, e.name, MARK, Hex(e.ino), more);
  }

  lemma Grouped(a: string, b: string, c: string, d: string, e: string, f: string)
    ensures a + (b + (c + (d + (e + f)))) == a + b + c + d + e + f
  {
  }

  lemma PartsOfBody(name: string, tail: string)
    ensures var body := name + (MARK + tail);
            |body| >= |name| + 10 && body[..|name|] == name && body[|name| + 10..] == tail
  {
  }

  lemma MatchOfParts(line: string, depth: nat, body: string, n: nat)
    requires 4 * depth <= |line| && Bars(line) == depth && line[4 * depth..] == BRANCH + body
    requires NameLength(body) == Some(n)
    ensures n + 10 <= |body|
    ensures Match(line) == Some(Entry(depth, body[..n], HexValue(HexRun(body[n + 10..]))))
  {
    assert (BRANCH + body)[4..] == body;
  }

  /** What the pattern matches: a listed name, and a nonempty maximal run of hexadecimal digits. */
  ghost predicate Shaped(line: string, e: Entry, hex: string, more: string) {
    && line == Indent(e.depth) + (BRANCH + (e.name + (MARK + (hex + more))))
    && hex != "" && AllHex(hex) && HexValue(hex) == e.ino && (more == "" || !IsHex(more[0]))
  }

  lemma {:induction false} BarsAreIndent(line: string)
    ensures 4 * Bars(line) <= |line| && line == Indent(Bars(line)) + line[4 * Bars(line)..]
  {
    if BAR <= line {
      BarsAreIndent(line[4..]);
      assert line == BAR + line[4..];
    }
  }

  /** Only lines of that shape are entered in the table. */
  lemma MatchIsShaped(line: string)
    requires Match(line).Some?
    ensures exists hex, more :: Shaped(line, Match(line).value, hex, more)
  {
    BarsAreIndent(line);
    var depth := Bars(line);
    var rest := line[4 * depth..];
    var body := rest[4..];
    assert rest == BRANCH + body;
    var n := NameLength(body).value;
    var hex, more := BodyIsShaped(body, n);
    MatchOfParts(line, depth, body, n);
    assert Shaped(line, Entry(depth, body[..n], HexValue(hex)), hex, more);
  }

  lemma BodyIsShaped(body: string, n: nat) returns (hex: string, more: string)
    requires n <= |body| && MarkAt(body[n..])
    ensures n + 10 <= |body| && body == body[..n] + (MARK + (hex + more)) && hex == HexRun(body[n + 10..])
    ensures hex != "" && AllHex(hex) && (more == "" || !IsHex(more[0]))
  {
    var rest := body[n..];
    hex, more := TailIsShaped(rest);
    DropTwice(body, n, 10);
    SplitAt(body, n);
  }

  lemma TailIsShaped(rest: string) returns (hex: string, more: string)
    requires MarkAt(rest)
    ensures rest == MARK + (hex + more) && hex == HexRun(rest[10..])
    ensures hex != "" && AllHex(hex) && (more == "" || !IsHex(more[0]))
  {
    MarkThen(rest);
    var tail := rest[10..];
    hex := HexRun(tail);
    more := tail[|hex|..];
    SplitAt(tail, |hex|);
  }

  lemma DropTwice(s: string, m: nat, n: nat)
    requires m + n <= |s|
    ensures s[m..][n..] == s[m + n..]
  {
  }

  lemma MarkThen(s: string)
    requires MarkAt(s)
    ensures s == MARK + s[10..] && IsHex(s[10..][0])
  {
  }

  lemma SplitAt(s: string, n: nat)
    requires n <= |s|
    ensures s == s[..n] + s[n..]
  {
  }

  /** Every line of that shape is entered, with the shortest name that fits. */
  lemma ShapedMatches(line: string, e: Entry, hex: string, more: string)
    requires Shaped(line, e, hex, more)
    ensures Match(line).Some? && Match(line).value.depth == e.depth && |Match(line).value.name| <= |e.name|
  {
    var body := e.name + (MARK + (hex + more));
    BarsOfLine(e.depth, BRANCH + body);
    assert body[|e.name|..] == MARK + (hex + more);
    assert (MARK + (hex + more))[10] == hex[0];
    assert MarkAt(body[|e.name|..]);
    MatchOfParts(line, e.depth, body, NameLength(body).value);
  }

  lemma RunOfHex(hex: string, more: string)
    requires AllHex(hex) && (more == "" || !IsHex(more[0]))
    ensures HexRun(hex + more) == hex
  {
    assert forall i :: 0 <= i < |hex| ==> (hex + more)[i] == hex[i];
    assert more != "" ==> (hex + more)[|hex|] == more[0];
  }

  // ----- the tree -----

  /** An ordered forest: a first node, the nodes under it, and the trees beside it. */
  datatype Forest = Nil | Tree(name: string, ino: nat, children: Forest, siblings: Forest)

  function Names(f: Forest): set<string> {
    if f == Nil then {} else {f.name} + Names(f.siblings)
  }

  function Count(f: Forest): nat {
    if f == Nil then 0 else 1 + Count(f.children) + Count(f.siblings)
  }

  /** No slash in any name, and no name twice in one directory. */
  ghost predicate Proper(f: Forest) {
    f.Tree? ==>
      && '/' !in f.name && f.name !in Names(f.siblings)
      && Proper(f.children) && Proper(f.siblings)
  }

  ghost predicate AllPrintable(f: Forest) {
    f.Tree? ==> Printable(f.name) && AllPrintable(f.children) && AllPrintable(f.siblings)
  }

  /** The node reached by naming one child after another. */
  function Find(f: Forest, path: seq<string>): Option<nat> {
    if f == Nil || path == [] then None
    else if path[0] != f.name then Find(f.siblings, path)
    else if |path| == 1 then Some(f.ino)
    else Find(f.children, path[1..])
  }

  /** The nodes in preorder. */
  function Preorder(f: Forest, depth: nat): seq<Entry> {
    if f == Nil then []
    else [Entry(depth, f.name, f.ino)] + Preorder(f.children, depth + 1) + Preorder(f.siblings, depth)
  }

  function Join(path: seq<string>): string {
    if path == [] then ""
    else if |path| == 1 then path[0]
    else path[0] + "/" + Join(path[1..])
  }

  /** A path's text, cut at its slashes. */
  function Pieces(text: string): (r: seq<string>)
    ensures r != []
  {
    if text == "" then [""]
    else if text[0] == '/' then [""] + Pieces(text[1..])
    else var rest := Pieces(text[1..]); [[text[0]] + rest[0]] + rest[1..]
  }

  /** Cut at its slashes, the text of a path of slash-free names is that path. */
  lemma {:induction false} JoinIsCut(path: seq<string>)
    requires path != [] && forall name :: name in path ==> '/' !in name
    ensures Pieces(Join(path)) == path
  {
    if |path| == 1 {
      PieceThen(path[0], "");
      assert path == [path[0]];
      assert path[0] + "" == path[0];
    } else {
      JoinIsCut(path[1..]);
      PieceThen(path[0], "/" + Join(path[1..]));
      assert path[0] + "/" + Join(path[1..]) == path[0] + ("/" + Join(path[1..]));
      assert ("/" + Join(path[1..]))[1..] == Join(path[1..]);
      assert path == [path[0]] + path[1..];
    }
  }

  lemma {:induction false} PieceThen(name: string, rest: string)
    requires '/' !in name && (rest != "" ==> rest[0] == '/')
    ensures Pieces(name + rest) == [name] + if rest == "" then [] else Pieces(rest[1..])
  {
    if name == "" {
      assert name + rest == rest;
    } else {
      assert (name + rest)[1..] == name[1..] + rest;
      assert name[0] in name && name == [name[0]] + name[1..];
      PieceThen(name[1..], rest);
      var more := if rest == "" then [] else Pieces(rest[1..]);
      assert ([name[1..]] + more)[1..] == more;
    }
  }

  // ----- the parser -----

  function Matched(lines: seq<string>): seq<Entry> {
    if lines == [] then []
    else
      match Match(lines[0])
      case None => Matched(lines[1..])
      case Some(e) => [e] + Matched(lines[1..])
  }

  type Table = map<string, (nat, string)>

  function Cut(stack: seq<string>, depth: nat): (r: seq<string>)
    ensures r <= stack && |r| == Min(depth, |stack|)
  {
    if depth < |stack| then stack[..depth] else stack
  }

  /** The table after the remaining entries, given the stack so far. */
  function Entered(es: seq<Entry>, stack: seq<string>, table: Table): Table {
    if es == [] then table
    else
      var next := Cut(stack, es[0].depth) + [es[0].name];
      Entered(es[1..], next, table[Join(next) := (es[0].ino, Join(next))])
  }

  method ParseTree(lines: seq<string>) returns (entries: Table)
    ensures entries == Entered(Matched(lines), [], map[])
  {
    var stack: seq<string> := [];
    entries := map[];
    for i := 0 to |lines|
      invariant Entered(Matched(lines[i..]), stack, entries) == Entered(Matched(lines), [], map[])
    {
      assert lines[i..][0] == lines[i] && lines[i..][1..] == lines[i + 1..];
      var m := Match(lines[i]);
      if m.None? {
        continue;
      }
      stack := Cut(stack, m.value.depth);
      stack := stack + [m.value.name];
      var path := Join(stack);
      entries := entries[path := (m.value.ino, path)];
    }
  }

  // ----- the round trip -----

  /** What the listing of a forest under a directory contributes to the table. */
  function Contribution(f: Forest, dir: seq<string>): Table {
    if f == Nil then map[]
    else
      var path := Join(dir + [f.name]);
      map[path := (f.ino, path)] + Contribution(f.children, dir + [f.name]) + Contribution(f.siblings, dir)
  }

  /** The stack always holds the current directory, however deep the listing just went. */
  lemma {:induction false} ListingIsEntered(f: Forest, dir: seq<string>, stack: seq<string>, table: Table,
                                            rest: seq<Entry>)
    returns (after: seq<string>)
    requires dir <= stack
    ensures dir <= after
    ensures Entered(Preorder(f, |dir|) + rest, stack, table) == Entered(rest, after, table + Contribution(f, dir))
  {
    if f == Nil {
      after := stack;
      assert Preorder(f, |dir|) + rest == rest;
      assert table + map[] == table;
    } else {
      var here := dir + [f.name];
      var path := Join(here);
      var under, beside := Preorder(f.children, |here|), Preorder(f.siblings, |dir|);
      ListedFirst(Entry(|dir|, f.name, f.ino), under, beside, rest);
      EnterOne(f, dir, stack, table, under + (beside + rest));
      var first := table[path := (f.ino, path)];
      var inner := ListingIsEntered(f.children, here, here, first, beside + rest);
      after := ListingIsEntered(f.siblings, dir, inner, first + Contribution(f.children, here), rest);
      Overlay(table, path, (f.ino, path), Contribution(f.children, here), Contribution(f.siblings, dir));
    }
  }

  lemma ListedFirst(e: Entry, under: seq<Entry>, beside: seq<Entry>, rest: seq<Entry>)
    ensures [e] + under + beside + rest == [e] + (under + (beside + rest))
  {
  }

  lemma EnterOne(f: Forest, dir: seq<string>, stack: seq<string>, table: Table, more: seq<Entry>)
    requires f.Tree? && dir <= stack
    ensures var here := dir + [f.name];
            Entered([Entry(|dir|, f.name, f.ino)] + more, stack, table)
              == Entered(more, here, table[Join(here) := (f.ino, Join(here))])
  {
    var es := [Entry(|dir|, f.name, f.ino)] + more;
    assert es[1..] == more;
    assert Cut(stack, |dir|) == dir;
  }

  lemma Overlay(table: Table, path: string, value: (nat, string), under: Table, beside: Table)
    ensures table[path := value] + under + beside == table + (map[path := value] + under + beside)
  {
  }

  // ----- paths as text -----

  ghost predicate SlashFree(path: seq<string>) {
    forall i :: 0 <= i < |path| ==> '/' !in path[i]
  }

  lemma {:induction false} JoinIsInjective(p: seq<string>, q: seq<string>)
    requires p != [] && q != [] && SlashFree(p) && SlashFree(q) && Join(p) == Join(q)
    ensures p == q
  {
    FirstComponent(p);
    FirstComponent(q);
    if |p| > 1 && |q| > 1 {
      JoinIsInjective(p[1..], q[1..]);
      assert p == [p[0]] + p[1..] && q == [q[0]] + q[1..];
    }
  }

  /** The text before the first slash. */
  function Head(s: string): string {
    if s == "" || s[0] == '/' then "" else [s[0]] + Head(s[1..])
  }

  lemma {:induction false} HeadStops(name: string, rest: string)
    requires '/' !in name && (rest == "" || rest[0] == '/')
    ensures Head(name + rest) == name
  {
    if name == "" {
      assert name + rest == rest;
    } else {
      assert (name + rest)[1..] == name[1..] + rest;
      HeadStops(name[1..], rest);
    }
  }

  lemma FirstComponent(p: seq<string>)
    requires p != [] && '/' !in p[0]
    ensures Head(Join(p)) == p[0]
    ensures |p| == 1 ==> |Join(p)| == |p[0]|
    ensures |p| > 1 ==> |Join(p)| > |p[0]| && Join(p)[|p[0]| + 1..] == Join(p[1..])
  {
    if |p| > 1 {
      assert Join(p) == p[0] + ("/" + Join(p[1..]));
      HeadStops(p[0], "/" + Join(p[1..]));
    } else {
      assert p[0] + "" == p[0];
      HeadStops(p[0], "");
    }
  }

  // ----- what the table holds -----

  lemma {:induction false} FoundName(f: Forest, path: seq<string>)
    requires Proper(f) && Find(f, path).Some?
    ensures path != [] && path[0] in Names(f) && SlashFree(path)
  {
    if path[0] != f.name {
      FoundName(f.siblings, path);
    } else if |path| > 1 {
      FoundName(f.children, path[1..]);
      assert path == [path[0]] + path[1..];
    }
  }

  /** Every key of the table is the full path of a node. */
  lemma {:induction false} KeyIsNode(f: Forest, dir: seq<string>, key: string) returns (path: seq<string>)
    requires Proper(f) && key in Contribution(f, dir)
    ensures Find(f, path).Some? && Join(dir + path) == key
  {
    var here := dir + [f.name];
    if key == Join(here) {
      path := [f.name];
    } else if key in Contribution(f.children, here) {
      var below := KeyIsNode(f.children, here, key);
      FoundName(f.children, below);
      path := [f.name] + below;
      assert path[1..] == below && dir + path == here + below;
    } else {
      path := KeyIsNode(f.siblings, dir, key);
      FoundName(f.siblings, path);
    }
  }

  /** No path through the first tree is the path of a node beside it. */
  lemma SiblingsApart(f: Forest, dir: seq<string>, below: seq<string>)
    requires f.Tree? && Proper(f) && SlashFree(dir) && SlashFree(below)
    ensures Join(dir + [f.name] + below) !in Contribution(f.siblings, dir)
  {
    var key := Join(dir + [f.name] + below);
    if key in Contribution(f.siblings, dir) {
      var other := KeyIsNode(f.siblings, dir, key);
      FoundName(f.siblings, other);
      PathsDiffer(dir, f.name, below, other);
    }
  }

  lemma PathsDiffer(dir: seq<string>, name: string, below: seq<string>, other: seq<string>)
    requires SlashFree(dir) && '/' !in name && SlashFree(below) && SlashFree(other)
    requires other != [] && other[0] != name
    ensures Join(dir + [name] + below) != Join(dir + other)
  {
    var path := dir + [name] + below;
    assert path[|dir|] == name && (dir + other)[|dir|] == other[0];
    if Join(path) == Join(dir + other) {
      JoinIsInjective(path, dir + other);
    }
  }

  lemma DirectoryApart(f: Forest, here: seq<string>)
    requires Proper(f) && SlashFree(here) && here != []
    ensures Join(here) !in Contribution(f, here)
  {
    if Join(here) in Contribution(f, here) {
      var other := KeyIsNode(f, here, Join(here));
      FoundName(f, other);
      assert |here + other| > |here|;
      JoinIsInjective(here, here + other);
    }
  }

  /** Every node is in the table under its full path, with its own inode. */
  lemma {:induction false} NodesAreContributed(f: Forest, dir: seq<string>, path: seq<string>)
    requires Proper(f) && SlashFree(dir) && Find(f, path).Some?
    ensures Join(dir + path) in Contribution(f, dir)
    ensures Contribution(f, dir)[Join(dir + path)] == (Find(f, path).value, Join(dir + path))
  {
    var here := dir + [f.name];
    FoundName(f, path);
    if path[0] != f.name {
      NodesAreContributed(f.siblings, dir, path);
    } else {
      assert dir + path == here + path[1..];
      SiblingsApart(f, dir, path[1..]);
      if |path| == 1 {
        assert dir + path == here;
        DirectoryApart(f.children, here);
      } else {
        NodesAreContributed(f.children, here, path[1..]);
      }
    }
  }

  lemma DisjointSize(m: Table, n: Table)
    requires m.Keys !! n.Keys
    ensures |m + n| == |m| + |n|
  {
    assert (m + n).Keys == m.Keys + n.Keys;
    assert |m| == |m.Keys| && |n| == |n.Keys| && |m + n| == |(m + n).Keys|;
  }

  lemma {:induction false} OneEntryEach(f: Forest, dir: seq<string>)
    requires Proper(f) && SlashFree(dir)
    ensures |Contribution(f, dir)| == Count(f)
  {
    if f.Tree? {
      var here := dir + [f.name];
      var own: Table := map[Join(here) := (f.ino, Join(here))];
      var under, beside := Contribution(f.children, here), Contribution(f.siblings, dir);
      OneEntryEach(f.children, here);
      OneEntryEach(f.siblings, dir);
      DirectoryApart(f.children, here);
      forall key | key in own + under
        ensures key !in beside
      {
        ThroughFirst(f, dir, key);
      }
      DisjointSize(own, under);
      DisjointSize(own + under, beside);
    }
  }

  lemma ThroughFirst(f: Forest, dir: seq<string>, key: string)
    requires f.Tree? && Proper(f) && SlashFree(dir)
    requires key == Join(dir + [f.name]) || key in Contribution(f.children, dir + [f.name])
    ensures key !in Contribution(f.siblings, dir)
  {
    var here := dir + [f.name];
    if key == Join(here) {
      SiblingsApart(f, dir, []);
      assert here + [] == here;
    } else {
      var below := KeyIsNode(f.children, here, key);
      FoundName(f.children, below);
      SiblingsApart(f, dir, below);
    }
  }

  /** One entry per node, from its full path to its inode and that path. */
  ghost predicate Maps(table: Table, f: Forest) {
    && |table| == Count(f)
    && (forall path :: Find(f, path).Some? ==>
        Join(path) in table && table[Join(path)] == (Find(f, path).value, Join(path)))
    && (forall key :: key in table ==> exists path :: Find(f, path).Some? && Join(path) == key)
  }

  lemma ContributionMaps(f: Forest)
    requires Proper(f)
    ensures Maps(Contribution(f, []), f)
  {
    OneEntryEach(f, []);
    forall path | Find(f, path).Some?
      ensures Join(path) in Contribution(f, [])
      ensures Contribution(f, [])[Join(path)] == (Find(f, path).value, Join(path))
    {
      NodesAreContributed(f, [], path);
      assert [] + path == path;
    }
    forall key | key in Contribution(f, [])
      ensures exists path :: Find(f, path).Some? && Join(path) == key
    {
      var path := KeyIsNode(f, [], key);
      assert [] + path == path;
    }
  }

  lemma TableOfListing(f: Forest, lines: seq<string>)
    requires Matched(lines) == Preorder(f, 0)
    ensures Entered(Matched(lines), [], map[]) == Contribution(f, [])
  {
    var after := ListingIsEntered(f, [], [], map[], []);
    assert Preorder(f, 0) + [] == Preorder(f, 0);
    assert map[] + Contribution(f, []) == Contribution(f, []);
  }

  /** Parsing a preorder listing gives exactly the map from full paths to inodes. */
  lemma TreeRoundTrip(f: Forest, lines: seq<string>)
    requires Proper(f) && Matched(lines) == Preorder(f, 0)
    ensures Maps(Entered(Matched(lines), [], map[]), f)
  {
    TableOfListing(f, lines);
    ContributionMaps(f);
  }

  ghost predicate Slashless(f: Forest) {
    f.Tree? ==> '/' !in f.name && Slashless(f.children) && Slashless(f.siblings)
  }

  ghost predicate Distinct(f: Forest) {
    f.Tree? ==> f.name !in Names(f.siblings) && Distinct(f.children) && Distinct(f.siblings)
  }

  lemma ProperIs(f: Forest)
    ensures Proper(f) <==> Slashless(f) && Distinct(f)
  {
  }

  lemma {:induction false} NameIsKey(f: Forest, dir: seq<string>, name: string)
    requires name in Names(f)
    ensures Join(dir + [name]) in Contribution(f, dir)
  {
    if name != f.name {
      NameIsKey(f.siblings, dir, name);
    }
  }

  lemma UnionSize(m: Table, n: Table)
    ensures |m + n| <= |m| + |n|
    ensures !(m.Keys !! n.Keys) ==> |m + n| < |m| + |n|
  {
    assert (m + n).Keys == m.Keys + n.Keys;
    assert |m.Keys + n.Keys| + |m.Keys * n.Keys| == |m.Keys| + |n.Keys|;
    assert |m| == |m.Keys| && |n| == |n.Keys| && |m + n| == |(m + n).Keys|;
    if key :| key in m.Keys && key in n.Keys {
      assert key in m.Keys * n.Keys;
    }
  }

  /** A name that occurs twice in one directory costs an entry. */
  lemma {:induction false} DuplicatesCollide(f: Forest, dir: seq<string>)
    ensures |Contribution(f, dir)| <= Count(f)
    ensures !Distinct(f) ==> |Contribution(f, dir)| < Count(f)
  {
    if f.Tree? {
      var here := dir + [f.name];
      var own: Table := map[Join(here) := (f.ino, Join(here))];
      var under, beside := Contribution(f.children, here), Contribution(f.siblings, dir);
      DuplicatesCollide(f.children, here);
      DuplicatesCollide(f.siblings, dir);
      UnionSize(own, under);
      UnionSize(own + under, beside);
      if f.name in Names(f.siblings) {
        NameIsKey(f.siblings, dir, f.name);
        assert Join(here) in (own + under).Keys && Join(here) in beside.Keys;
      }
    }
  }

  /** For slash-free names the listing is parsed faithfully exactly when no directory repeats a name. */
  lemma FaithfulExactly(f: Forest, lines: seq<string>)
    requires Slashless(f) && Matched(lines) == Preorder(f, 0)
    ensures Maps(Entered(Matched(lines), [], map[]), f) <==> Distinct(f)
  {
    ProperIs(f);
    if Distinct(f) {
      TreeRoundTrip(f, lines);
    } else {
      TableOfListing(f, lines);
      DuplicatesCollide(f, []);
    }
  }

  // ----- the printed listing -----

  /** What may follow the inode number on a line: anything that does not prolong the number. */
  predicate Trails(more: string) {
    more == "" || !IsHex(more[0])
  }

  ghost predicate Shows(line: string, e: Entry) {
    exists more :: Trails(more) && line == Line(e, more)
  }

  /** The lines show the entries in order, each with its own trailing text, among lines that show nothing. */
  ghost predicate Prints(lines: seq<string>, es: seq<Entry>) {
    if lines == [] then es == []
    else
      || (Match(lines[0]).None? && Prints(lines[1..], es))
      || (es != [] && Shows(lines[0], es[0]) && Prints(lines[1..], es[1..]))
  }

  ghost predicate EachPrintable(es: seq<Entry>) {
    forall e :: e in es ==> Printable(e.name)
  }

  lemma {:induction false} PreorderIsPrintable(f: Forest, depth: nat)
    requires AllPrintable(f)
    ensures EachPrintable(Preorder(f, depth))
  {
    if f.Tree? {
      PreorderIsPrintable(f.children, depth + 1);
      PreorderIsPrintable(f.siblings, depth);
    }
  }

  /** The text of a listing is read back entry by entry. */
  lemma {:induction false} PrintedIsMatched(lines: seq<string>, es: seq<Entry>)
    requires Prints(lines, es) && EachPrintable(es)
    ensures Matched(lines) == es
  {
    hide Match, Line, Printable;
    if lines != [] {
      if Match(lines[0]).None? && Prints(lines[1..], es) {
        PrintedIsMatched(lines[1..], es);
      } else {
        var more :| Trails(more) && lines[0] == Line(es[0], more);
        LineRoundTrip(es[0], more);
        PrintedIsMatched(lines[1..], es[1..]);
      }
    }
  }

  /** From the text of a listing to the map, for every forest with printable names. */
  lemma PrintedTreeRoundTrip(f: Forest, lines: seq<string>)
    requires Slashless(f) && AllPrintable(f) && Prints(lines, Preorder(f, 0))
    ensures Maps(Entered(Matched(lines), [], map[]), f) <==> Distinct(f)
  {
    PreorderIsPrintable(f, 0);
    PrintedIsMatched(lines, Preorder(f, 0));
    FaithfulExactly(f, lines);
  }
}
