/** The scanners over /proc/modules and /proc/partitions. */
module ProcText {
  import opened Common

  // ----- /proc/modules -----

  /** Kernel spelling of a module name: hyphens become underscores. */
  function KernelName(name: string): (r: string)
    ensures |r| == |name|
  {
    seq(|name|, i requires 0 <= i < |name| => if name[i] == '-' then '_' else name[i])
  }

  /** A name's kernel spelling: the text between its hyphens stays, each hyphen is one underscore. */
  lemma KernelNameSplits(a: string, b: string)
    ensures KernelName(a + "-" + b) == KernelName(a) + "_" + KernelName(b)
    ensures '-' !in a ==> KernelName(a) == a
  {
  }

  /** Copies the kernel spelling of src, cut to the buffer, and terminates it. */
  method Normalize(dst: array<char>, src: string)
    requires dst.Length > 0 && '\0' !in src
    modifies dst
    ensures CStr(dst[..]) == KernelName(src)[..Min(|src|, dst.Length - 1)]
  {
    var i := 0;
    while i < |src| && i < dst.Length - 1
      invariant 0 <= i <= |src| && i <= dst.Length - 1
      invariant dst[..i] == KernelName(src)[..i]
    {
      dst[i] := if src[i] == '-' then '_' else src[i];
      i := i + 1;
    }
    dst[i] := '\0';
    CStrStops(dst[..], i);
  }

  lemma KernelNameIsOneWord(name: string, k: nat)
    requires OneWord(name) && k <= |name|
    ensures OneWord(KernelName(name)[..k])
  {
    forall c | c in KernelName(name)[..k] ensures !Blank(c) && c != '\n' && c != '\0' {
      var i :| 0 <= i < k && KernelName(name)[..k][i] == c;
      assert name[i] in name;
    }
  }

  lemma {:induction false} CStrStops(s: string, k: nat)
    requires k < |s| && s[k] == '\0' && '\0' !in s[..k]
    ensures CStr(s) == s[..k]
  {
    if k > 0 {
      assert s[..k] == [s[0]] + s[1..][..k - 1];
      CStrStops(s[1..], k - 1);
    }
  }

  /** The lines of a text, without their newlines. */
  function Lines(text: string): (r: seq<string>)
    ensures |r| > 0
  {
    if text == "" then [""]
    else if text[0] == '\n' then [""] + Lines(text[1..])
    else var rest := Lines(text[1..]); [[text[0]] + rest[0]] + rest[1..]
  }

  predicate Blank(c: char) {
    c == ' ' || c == '\t'
  }

  /** A line's first field: everything before its first blank, when it has one. */
  function FirstField(line: string): Option<string> {
    if line == "" then None
    else if Blank(line[0]) then Some("")
    else match FirstField(line[1..])
      case None => None
      case Some(field) => Some([line[0]] + field)
  }

  ghost predicate Listed(text: string, name: string) {
    AmongLines(Lines(text), name)
  }

  ghost predicate OneWord(name: string) {
    forall c :: c in name ==> !Blank(c) && c != '\n' && c != '\0'
  }

  /** strncmp(p, name, |name|) == 0, followed by a blank. */
  predicate FieldAt(text: string, p: nat, name: string)
    requires p <= |text|
  {
    p + |name| < |text| && text[p..p + |name|] == name && Blank(text[p + |name|])
  }

  lemma {:induction false} FirstFieldIs(line: string, name: string)
    requires OneWord(name)
    ensures FirstField(line) == Some(name) <==> FieldAt(line, 0, name)
  {
    assert name != "" ==> name[0] in name;
    if line == "" || Blank(line[0]) {
      assert |name| <= |line| ==> |line[0..|name|]| == |name|;
    } else if name != "" {
      FirstFieldIs(line[1..], name[1..]);
      assert name == [name[0]] + name[1..];
      if FieldAt(line, 0, name) {
        assert line[1..][0..|name| - 1] == line[0..|name|][1..];
      }
      if line[0] == name[0] && FieldAt(line[1..], 0, name[1..]) {
        assert line[0..|name|] == [line[0]] + line[1..][0..|name| - 1];
      }
      if FirstField(line) == Some(name) {
        var tail := FirstField(line[1..]).value;
        assert ([line[0]] + tail)[1..] == tail;
      }
    }
  }

  /** Splitting at the first newline, as strchr finds it. */
  lemma {:induction false} LinesAtNewline(text: string, nl: nat)
    requires nl <= |text| && '\n' !in text[..nl]
    requires nl == |text| || text[nl] == '\n'
    ensures Lines(text) == if nl == |text| then [text] else [text[..nl]] + Lines(text[nl + 1..])
  {
    if nl > 0 {
      var tail := text[1..];
      assert text[..nl] == [text[0]] + tail[..nl - 1];
      LinesAtNewline(tail, nl - 1);
      if nl == |text| {
        Prepend(text[0], tail, []);
        assert text == [text[0]] + tail;
        assert [tail] + [] == [tail];
      } else {
        assert tail[nl..] == text[nl + 1..];
        Prepend(text[0], tail[..nl - 1], Lines(text[nl + 1..]));
      }
    } else if text != "" {
      assert text[..0] == "";
    }
  }

  lemma Prepend(c: char, line: string, more: seq<string>)
    ensures var lines := [line] + more;
            [[c] + lines[0]] + lines[1..] == [[c] + line] + more
  {
  }

  /** A word before the first newline sits in the first line. */
  lemma FieldOfLine(text: string, p: nat, nl: nat, name: string)
    requires OneWord(name) && p <= nl <= |text| && '\n' !in text[p..nl]
    requires nl == |text| || text[nl] == '\n'
    ensures FieldAt(text, p, name) <==> FirstField(text[p..nl]) == Some(name)
  {
    var line := text[p..nl];
    FirstFieldIs(line, name);
    if p + |name| < |text| && nl < p + |name| {
      assert text[p..p + |name|][nl - p] == '\n';
      assert name[nl - p] in name;
    } else if p + |name| < nl {
      assert line[0..|name|] == text[p..p + |name|];
    }
  }

  /** Moving past one line of the text. */
  lemma NextLine(text: string, p: nat, nl: nat)
    requires p <= nl <= |text| && '\n' !in text[p..nl]
    requires nl == |text| || text[nl] == '\n'
    ensures Lines(text[p..]) == [text[p..nl]] + if nl == |text| then [] else Lines(text[nl + 1..])
  {
    assert text[p..][..nl - p] == text[p..nl];
    LinesAtNewline(text[p..], nl - p);
    if nl == |text| {
      assert text[p..] == text[p..nl];
    } else {
      assert text[p..][nl - p + 1..] == text[nl + 1..];
    }
  }

  ghost predicate AmongLines(lines: seq<string>, name: string) {
    exists line :: line in lines && FirstField(line) == Some(name)
  }

  /** What one step of the walk decides. */
  lemma LineStep(text: string, p: nat, nl: nat, name: string)
    requires OneWord(name) && p <= nl <= |text| && '\n' !in text[p..nl]
    requires nl == |text| || text[nl] == '\n'
    ensures Listed(text[p..], name) <==>
            FieldAt(text, p, name) || (nl < |text| && Listed(text[nl + 1..], name))
  {
    FieldOfLine(text, p, nl, name);
    NextLine(text, p, nl);
    if FieldAt(text, p, name) {
      assert text[p..nl] in Lines(text[p..]);
    }
  }

  /** The pointer walk of module_present. */
  method ScanModules(text: string, norm: string) returns (present: bool)
    ensures OneWord(norm) ==> (present <==> Listed(text, norm))
  {
    var p := 0;
    while p < |text|
      invariant 0 <= p <= |text|
      invariant OneWord(norm) ==> (Listed(text, norm) <==> Listed(text[p..], norm))
      decreases |text| - p
    {
      var nl := p;
      while nl < |text| && text[nl] != '\n'
        invariant p <= nl <= |text| && '\n' !in text[p..nl]
      {
        nl := nl + 1;
      }
      if OneWord(norm) {
        LineStep(text, p, nl, norm);
      }
      var end := p + |norm|;
      if end < |text| && text[p..end] == norm && (text[end] == ' ' || text[end] == '\t') {
        return true;
      }
      if nl == |text| {
        return false;
      }
      p := nl + 1;
    }
    assert text[p..] == "";
    return false;
  }

  // ----- /proc/partitions -----

  predicate Space(c: char) {
    c == ' ' || c == '\t' || c == '\n'
  }

  /** The text cut at every space: each maximal run of other characters, and empty runs. */
  function Tokens(text: string): (r: seq<string>)
    ensures |r| > 0
  {
    if text == "" then [""]
    else if Space(text[0]) then [""] + Tokens(text[1..])
    else var rest := Tokens(text[1..]); [[text[0]] + rest[0]] + rest[1..]
  }

  ghost predicate SpaceFree(name: string) {
    forall c :: c in name ==> !Space(c)
  }

  predicate MatchAt(text: string, p: nat, name: string) {
    p + |name| <= |text| && text[p..p + |name|] == name
  }

  /** A match whose neighbours are spaces or the ends of the text. */
  predicate TokenAt(text: string, p: nat, name: string) {
    && MatchAt(text, p, name)
    && (p == 0 || Space(text[p - 1]))
    && (p + |name| == |text| || Space(text[p + |name|]))
  }

  lemma {:induction false} FirstToken(text: string, name: string)
    requires SpaceFree(name)
    ensures Tokens(text)[0] == name <==> TokenAt(text, 0, name)
  {
    assert name != "" ==> name[0] in name;
    if text == "" || Space(text[0]) {
      assert |name| <= |text| ==> |text[0..|name|]| == |name|;
    } else if name != "" {
      FirstToken(text[1..], name[1..]);
      assert name == [name[0]] + name[1..];
      if MatchAt(text, 0, name) {
        assert text[1..][0..|name| - 1] == text[0..|name|][1..];
      }
      if text[0] == name[0] && MatchAt(text[1..], 0, name[1..]) {
        assert text[0..|name|] == [text[0]] + text[1..][0..|name| - 1];
      }
      var first := Tokens(text[1..])[0];
      assert ([text[0]] + first)[1..] == first;
    }
  }

  /** The same, after a token that started earlier. */
  lemma {:induction false} LaterTokens(text: string, name: string)
    requires name != "" && SpaceFree(name)
    ensures name in Tokens(text)[1..] <==> exists p :: p > 0 && TokenAt(text, p, name)
  {
    if text != "" {
      var rest := text[1..];
      LaterTokens(rest, name);
      FirstToken(rest, name);
      ShiftedTokens(text, name);
      if Space(text[0]) {
        assert Tokens(text)[1..] == Tokens(rest);
        assert Tokens(rest) == [Tokens(rest)[0]] + Tokens(rest)[1..];
      } else {
        assert Tokens(text)[1..] == Tokens(rest)[1..];
      }
    }
  }

  /** Later tokens of a text are the later tokens of its rest, and its first one after a space. */
  lemma ShiftedTokens(text: string, name: string)
    requires text != "" && name != "" && SpaceFree(name)
    ensures (exists p :: p > 0 && TokenAt(text, p, name))
        <==> (exists p :: p > 0 && TokenAt(text[1..], p, name)) || (Space(text[0]) && TokenAt(text[1..], 0, name))
  {
    var rest := text[1..];
    if p :| p > 0 && TokenAt(text, p, name) {
      ShiftedToken(text, p - 1, name);
    }
    if p :| p > 0 && TokenAt(rest, p, name) {
      ShiftedToken(text, p, name);
    }
    if Space(text[0]) && TokenAt(rest, 0, name) {
      ShiftedToken(text, 0, name);
    }
  }

  lemma ShiftedToken(text: string, p: nat, name: string)
    requires text != ""
    ensures TokenAt(text, p + 1, name) <==> TokenAt(text[1..], p, name) && (p == 0 ==> Space(text[0]))
  {
    var rest := text[1..];
    if p + 1 + |name| <= |text| {
      assert rest[p..p + |name|] == text[p + 1..p + 1 + |name|];
    }
  }

  lemma TokenSomewhere(text: string, name: string)
    requires name != "" && SpaceFree(name)
    ensures name in Tokens(text) <==> exists p: nat :: TokenAt(text, p, name)
  {
    FirstToken(text, name);
    LaterTokens(text, name);
    assert Tokens(text) == [Tokens(text)[0]] + Tokens(text)[1..];
  }

  /** strstr: the first match at or after p. */
  method Strstr(text: string, p: nat, name: string) returns (hit: Option<nat>)
    requires p <= |text|
    ensures hit.None? ==> forall i: nat :: p <= i ==> !MatchAt(text, i, name)
    ensures hit.Some? ==> p <= hit.value && MatchAt(text, hit.value, name)
    ensures hit.Some? ==> forall i :: p <= i < hit.value ==> !MatchAt(text, i, name)
  {
    var i := p;
    while i + |name| <= |text|
      invariant p <= i
      invariant forall j :: p <= j < i ==> !MatchAt(text, j, name)
      decreases |text| - i
    {
      if text[i..i + |name|] == name {
        return Some(i);
      }
      i := i + 1;
    }
    return None;
  }

  /** After a match with bad boundaries, no token starts inside that match. */
  lemma SkipIsSafe(text: string, hit: nat, i: nat, name: string)
    requires SpaceFree(name) && MatchAt(text, hit, name) && !TokenAt(text, hit, name)
    requires hit <= i < hit + |name|
    ensures !TokenAt(text, i, name)
  {
    if i > hit && i <= |text| {
      assert text[i - 1] == name[i - 1 - hit];
      assert text[i - 1] in name;
    }
  }

  /** The boundary-checked strstr loop of wait_for_partition. */
  method ScanPartitions(text: string, name: string) returns (found: bool)
    requires name != ""
    ensures SpaceFree(name) ==> (found <==> name in Tokens(text))
  {
    if SpaceFree(name) {
      TokenSomewhere(text, name);
    }
    var p := 0;
    while true
      invariant p <= |text|
      invariant SpaceFree(name) ==> forall i: nat :: i < p ==> !TokenAt(text, i, name)
      decreases |text| - p
    {
      var hit := Strstr(text, p, name);
      if hit.None? {
        return false;
      }
      p := hit.value;
      var before := if p == 0 then ' ' else text[p - 1];
      var after := if p + |name| == |text| then '\n' else text[p + |name|];
      var beforeOk := before == ' ' || before == '\t' || before == '\n';
      if beforeOk && (after == '\n' || after == ' ' || after == '\t') {
        assert TokenAt(text, p, name);
        return true;
      }
      if SpaceFree(name) {
        forall i | p <= i < p + |name| ensures !TokenAt(text, i, name) {
          SkipIsSafe(text, p, i, name);
        }
      }
      p := p + |name|;
    }
  }
}
