/** `report_graphviz.py`: a connection diagram scraped from the text of the
    dump files. Each file names its own resource on a `resourceid:` line;
    every other line that ends in an AWS-style id refers to that resource,
    and becomes an edge from the file's resource to the id. */
module Scraper {
  import opened Wrappers
  import opened Text

  // ---------------------------------------------------------------------
  // the pattern `(.*) ([-a-z]+-[0-9a-f]{17})$`

  predicate IsLowerOrDash(ch: char)
  {
    ch == '-' || 'a' <= ch <= 'z'
  }

  /** `[-a-z]+-[0-9a-f]{17}` over a whole string: at least one letter or
      dash, a dash, and exactly seventeen lower-case hexadecimal digits. */
  predicate IsIdToken(t: string)
  {
    && |t| >= 19
    && (forall i :: 0 <= i < |t| - 18 ==> IsLowerOrDash(t[i]))
    && t[|t| - 18] == '-'
    && (forall i :: |t| - 17 <= i < |t| ==> IsHexDigit(t[i]))
  }

  /** An id holds no space. */
  lemma TokenHasNoSpace(t: string)
    requires IsIdToken(t)
    ensures forall i :: 0 <= i < |t| ==> t[i] != ' '
  {
    forall i | 0 <= i < |t| ensures t[i] != ' ' {
      if i < |t| - 18 {
        assert IsLowerOrDash(t[i]);
      } else if i >= |t| - 17 {
        assert IsHexDigit(t[i]);
      }
    }
  }

  /** `line` is some text, a space, and an id: the pattern matches with
      `group1` and `group2` as its groups. */
  predicate Matches(line: string, group1: string, group2: string)
  {
    line == group1 + " " + group2 && IsIdToken(group2)
  }

  /** The position of the last space of `s`. */
  function LastSpace(s: string): (k: Option<nat>)
    ensures k.Some? ==> k.value < |s| && s[k.value] == ' '
    ensures k.Some? ==> forall j :: k.value < j < |s| ==> s[j] != ' '
    ensures k.None? ==> forall j :: 0 <= j < |s| ==> s[j] != ' '
    decreases |s|
  {
    if s == [] then None
    else if s[|s| - 1] == ' ' then Some(|s| - 1)
    else LastSpace(s[..|s| - 1])
  }

  /** `matcher.match(line)`: the text before the last space and the text
      after it, when the latter is an id. */
  function Match(line: string): (r: Option<(string, string)>)
    ensures r.Some? ==> Matches(line, r.value.0, r.value.1)
  {
    var k := LastSpace(line);
    if k.Some? && IsIdToken(line[k.value + 1..]) then
      assert line == line[..k.value] + " " + line[k.value + 1..];
      Some((line[..k.value], line[k.value + 1..]))
    else None
  }

  /** As an id holds no space, the only split the pattern can find is at
      the last space of the line: the match is found whenever a split
      exists, and it is that split. */
  lemma MatchIsOnlySplit(line: string, g1: string, g2: string)
    requires Matches(line, g1, g2)
    ensures Match(line) == Some((g1, g2))
  {
    TokenHasNoSpace(g2);
    assert line[|g1|] == ' ';
    assert forall j :: |g1| < j < |line| ==> line[j] == g2[j - |g1| - 1];
    assert line[|g1| + 1..] == g2 && line[..|g1|] == g1;
  }

  // ---------------------------------------------------------------------
  // one line of read_ids

  const ResourcePrefix := "resourceid: "

  predicate IsResourceLine(line: string)
  {
    StartsWith(line, ResourcePrefix)
  }

  /** A stripped `resourceid:` line always has a second word: `split()[1]`
      cannot fail. */
  lemma ResourceWords(line: string)
    requires IsResourceLine(line) && !IsSpace(line[|line| - 1])
    ensures |Words(line)| >= 2 && Words(line)[0] == "resourceid:"
  {
    var head := "resourceid:";
    var rest := line[11..];
    assert line == head + rest;
    assert rest[0] == ' ';
    WordOfPrefix(head, rest);
    assert TrimLeft(line) == line;
    assert line[|head|..] == rest;
    TrimLeftKeepsLast(rest);
  }

  /** The id a `resourceid:` line names: its second word. */
  function ResourceId(line: string): (id: string)
    requires IsResourceLine(line) && !IsSpace(line[|line| - 1])
  {
    ResourceWords(line);
    Words(line)[1]
  }

  /** What one line of a file tells `read_ids`. */
  datatype LineKind =
    | NamesId(id: string)      // a `resourceid:` line
    | RefersTo(ref: string)    // a line ending in an id
    | Ignored

  /** One line of the `readline` loop, stripped: a `resourceid:` line
      names the file's resource by its second word; any other line the
      pattern matches refers to its id, unless the text before the id is
      exactly `Description:`. */
  function Classify(raw: string): LineKind
  {
    var line := Strip(raw);
    if IsResourceLine(line) then NamesId(ResourceId(line))
    else
      match Match(line)
      case None => Ignored
      case Some((g1, g2)) => if g1 == "Description:" then Ignored else RefersTo(g2)
  }

  /** A line names the file's resource exactly when, stripped, it starts
      with `resourceid: `, and the id is its second word. */
  lemma ClassifyNames(raw: string)
    ensures Classify(raw).NamesId? <==> IsResourceLine(Strip(raw))
    ensures Classify(raw).NamesId? ==> |Words(Strip(raw))| >= 2 && Classify(raw).id == Words(Strip(raw))[1]
  {
    var line := Strip(raw);
    if IsResourceLine(line) {
      ResourceWords(line);
    }
  }

  /** A line refers to id `x` exactly when it does not name a resource
      and, stripped, it is some text other than `Description:`, a space,
      and `x`; such an `x` has the shape of an id. */
  lemma ClassifyRefers(raw: string, x: string)
    ensures Classify(raw) == RefersTo(x) <==>
      && !IsResourceLine(Strip(raw))
      && exists g1 :: g1 != "Description:" && Matches(Strip(raw), g1, x)
    ensures Classify(raw) == RefersTo(x) ==> IsIdToken(x)
  {
    var line := Strip(raw);
    if !IsResourceLine(line) && exists g1 :: g1 != "Description:" && Matches(line, g1, x) {
      var g1 :| g1 != "Description:" && Matches(line, g1, x);
      MatchIsOnlySplit(line, g1, x);
    }
  }

  // ---------------------------------------------------------------------
  // read_ids

  /** What `read_ids` has gathered: `this` (here `own`), and `refs` in the
      order the ids were first seen. */
  datatype Scan = Scan(own: Option<string>, refs: seq<string>)

  predicate Distinct(xs: seq<string>)
  {
    forall i, j :: 0 <= i < j < |xs| ==> xs[i] != xs[j]
  }

  /** `refs.add(x)` */
  function Added(refs: seq<string>, x: string): (r: seq<string>)
    requires Distinct(refs)
    ensures Distinct(r)
    ensures forall y :: y in r <==> y in refs || y == x
  {
    if x in refs then refs else refs + [x]
  }

  /** The body of the line loop: a `resourceid:` line replaces `this`,
      and an id a line refers to is added to `refs`. */
  function Step(scan: Scan, kind: LineKind): (r: Scan)
    requires Distinct(scan.refs)
    ensures Distinct(r.refs)
  {
    match kind
    case NamesId(id) => scan.(own := Some(id))
    case RefersTo(x) => scan.(refs := Added(scan.refs, x))
    case Ignored => scan
  }

  /** The line loop of `read_ids` over the classified lines of a file. */
  function ScanAll(kinds: seq<LineKind>): (r: Scan)
    ensures Distinct(r.refs)
    decreases |kinds|
  {
    if kinds == [] then Scan(None, [])
    else Step(ScanAll(kinds[..|kinds| - 1]), kinds[|kinds| - 1])
  }

  function Kinds(lines: seq<string>): (kinds: seq<LineKind>)
    ensures |kinds| == |lines|
    ensures forall i :: 0 <= i < |lines| ==> kinds[i] == Classify(lines[i])
  {
    seq(|lines|, i requires 0 <= i < |lines| => Classify(lines[i]))
  }

  /** The file's resource is unknown exactly when no line names one. */
  lemma {:induction false} OwnUnknown(kinds: seq<LineKind>)
    ensures ScanAll(kinds).own.None? <==> forall i :: 0 <= i < |kinds| ==> !kinds[i].NamesId?
    decreases |kinds|
  {
    if kinds != [] {
      var n := |kinds|;
      var prefix := kinds[..n - 1];
      OwnUnknown(prefix);
      assert forall i :: 0 <= i < n - 1 ==> prefix[i] == kinds[i];
    }
  }

  /** The file's resource is the one its last `resourceid:` line names. */
  lemma {:induction false} OwnIsLast(kinds: seq<LineKind>, i: int)
    requires 0 <= i < |kinds| && kinds[i].NamesId?
    requires forall j :: i < j < |kinds| ==> !kinds[j].NamesId?
    ensures ScanAll(kinds).own == Some(kinds[i].id)
    decreases |kinds|
  {
    var n := |kinds|;
    var prefix := kinds[..n - 1];
    if i < n - 1 {
      assert prefix[i] == kinds[i];
      assert forall j :: i < j < n - 1 ==> prefix[j] == kinds[j];
      OwnIsLast(prefix, i);
    }
  }

  /** `refs` holds exactly the ids the lines refer to. */
  lemma {:induction false} RefsGathered(kinds: seq<LineKind>, x: string)
    ensures x in ScanAll(kinds).refs <==> RefersTo(x) in kinds
    decreases |kinds|
  {
    if kinds != [] {
      var n := |kinds|;
      var prefix := kinds[..n - 1];
      RefsGathered(prefix, x);
      assert kinds == prefix + [kinds[n - 1]];
    }
  }

  /** One edge of the diagram. */
  function Edge(own: string, ref: string): string
  {
    " \"" + own + "\" -> \"" + ref + "\""
  }

  /** Two edges from the same resource are the same line only when they
      go to the same id. */
  lemma EdgeInjective(own: string, a: string, b: string)
    requires Edge(own, a) == Edge(own, b)
    ensures a == b
  {
    var n := |" \"" + own + "\" -> \""|;
    assert a == Edge(own, a)[n..|Edge(own, a)| - 1];
  }

  /** The edges printed for `refs`, in their order, skipping the file's
      own id. */
  function Edges(own: string, refs: seq<string>): (lines: seq<string>)
    ensures forall ref :: Edge(own, ref) in lines ==> ref in refs && ref != own
    ensures forall ref :: ref in refs && ref != own ==> Edge(own, ref) in lines
    decreases |refs|
  {
    if refs == [] then []
    else
      var n := |refs|;
      var last := refs[n - 1];
      var before := Edges(own, refs[..n - 1]);
      assert refs == refs[..n - 1] + [last];
      var lines := before + (if last == own then [] else [Edge(own, last)]);
      assert forall ref :: Edge(own, ref) in lines ==> ref in refs && ref != own by {
        forall ref | Edge(own, ref) in lines ensures ref in refs && ref != own {
          if Edge(own, ref) !in before {
            EdgeInjective(own, ref, last);
          }
        }
      }
      lines
  }

  /** Distinct ids give distinct edges. */
  lemma {:induction false} EdgesDistinct(own: string, refs: seq<string>)
    requires Distinct(refs)
    ensures Distinct(Edges(own, refs))
    decreases |refs|
  {
    if refs != [] {
      var n := |refs|;
      var last := refs[n - 1];
      EdgesDistinct(own, refs[..n - 1]);
      assert last !in refs[..n - 1];
    }
  }

  /** `read_ids(f)`, one entry per `print`: a comment when the file names
      no resource, otherwise one edge per id it refers to other than its
      own. */
  function ReadIds(lines: seq<string>): seq<string>
  {
    var scan := ScanAll(Kinds(lines));
    match scan.own
    case None => ["# Could not find this id"]
    case Some(own) => Edges(own, scan.refs)
  }

  /** A file that names no resource prints only the comment; otherwise no
      edge is printed twice. */
  lemma ReadIdsOutput(lines: seq<string>)
    ensures (forall i :: 0 <= i < |lines| ==> !Classify(lines[i]).NamesId?) ==> ReadIds(lines) == ["# Could not find this id"]
    ensures (exists i :: 0 <= i < |lines| && Classify(lines[i]).NamesId?) ==> Distinct(ReadIds(lines))
  {
    var kinds := Kinds(lines);
    OwnUnknown(kinds);
    var scan := ScanAll(kinds);
    if scan.own.Some? {
      EdgesDistinct(scan.own.value, scan.refs);
    }
  }

  /** The edges go from the resource the last `resourceid:` line names to
      exactly the ids the other lines refer to, never to the resource
      itself. */
  lemma ReadIdsEdges(lines: seq<string>, i: int, x: string)
    requires 0 <= i < |lines| && Classify(lines[i]).NamesId?
    requires forall j :: i < j < |lines| ==> !Classify(lines[j]).NamesId?
    ensures Edge(Classify(lines[i]).id, x) in ReadIds(lines) <==>
      x != Classify(lines[i]).id && exists k :: 0 <= k < |lines| && Classify(lines[k]) == RefersTo(x)
  {
    var kinds := Kinds(lines);
    var own := Classify(lines[i]).id;
    assert forall j :: i < j < |kinds| ==> !kinds[j].NamesId?;
    OwnIsLast(kinds, i);
    var scan := ScanAll(kinds);
    assert scan.own == Some(own);
    assert ReadIds(lines) == Edges(own, scan.refs);
    RefsGathered(kinds, x);
    assert RefersTo(x) in kinds <==> exists k :: 0 <= k < |lines| && Classify(lines[k]) == RefersTo(x) by {
      if RefersTo(x) in kinds {
        var k :| 0 <= k < |kinds| && kinds[k] == RefersTo(x);
        assert Classify(lines[k]) == RefersTo(x);
      }
    }
  }

  // ---------------------------------------------------------------------
  // main

  const Header := ["digraph G {", " node [ shape = rectangle ]", " rankdir = LR"]

  function FileLines(lines: seq<string>): Result<seq<string>>
  {
    Success(ReadIds(lines))
  }

  /** `main`: the header, what `read_ids` prints for each file in turn, and
      the closing brace. */
  function Diagram(files: seq<seq<string>>): (out: seq<string>)
  {
    GatherSucceeds(files, FileLines);
    Header + Gather(files, FileLines).value + ["}"]
  }

  /** The diagram holds the output of every file, and nothing between its
      header and closing brace that no file printed. */
  lemma DiagramLines(files: seq<seq<string>>, line: string)
    ensures (exists f :: 0 <= f < |files| && line in ReadIds(files[f])) ==> line in Diagram(files)
    ensures line in Diagram(files) && line !in Header && line != "}" ==>
      exists f :: 0 <= f < |files| && line in ReadIds(files[f])
  {
    GatherSucceeds(files, FileLines);
    var body := Gather(files, FileLines).value;
    if exists f :: 0 <= f < |files| && line in ReadIds(files[f]) {
      var f :| 0 <= f < |files| && line in ReadIds(files[f]);
      GatherHas(files, FileLines, f, line);
    }
    if line in Diagram(files) && line !in Header && line != "}" {
      assert line in body;
      GatherFrom(files, FileLines, line);
    }
  }

  // ---------------------------------------------------------------------
  // read_ids and main as the source writes them

  /** The body of the `readline` loop of `read_ids`. */
  method LineBody(own: Option<string>, refs: seq<string>, raw: string) returns (own': Option<string>, refs': seq<string>)
    requires Distinct(refs)
    ensures Scan(own', refs') == Step(Scan(own, refs), Classify(raw))
  {
    own', refs' := own, refs;
    var line := Strip(raw);
    if IsResourceLine(line) {
      ResourceWords(line);
      own' := Some(Words(line)[1]);
      return;
    }
    var found := Match(line);
    if found.None? {
      return;
    }
    if found.value.0 == "Description:" {
      return;
    }
    if found.value.1 !in refs {
      refs' := refs + [found.value.1];
    }
  }

  /** The loop over `refs` at the end of `read_ids`. */
  method EdgeLoop(own: string, refs: seq<string>) returns (out: seq<string>)
    ensures out == Edges(own, refs)
  {
    out := [];
    for j := 0 to |refs|
      invariant out == Edges(own, refs[..j])
    {
      assert refs[..j + 1][..j] == refs[..j];
      if refs[j] == own {
        continue;
      }
      out := out + [Edge(own, refs[j])];
    }
    assert refs[..|refs|] == refs;
  }

  /** `read_ids(f)` with its `readline` loop. */
  method ReadIdsLoop(lines: seq<string>) returns (out: seq<string>)
    ensures out == ReadIds(lines)
  {
    var kinds := Kinds(lines);
    var own: Option<string> := None;
    var refs: seq<string> := [];
    var i := 0;
    while i < |lines|
      invariant 0 <= i <= |lines|
      invariant Scan(own, refs) == ScanAll(kinds[..i])
    {
      assert kinds[..i + 1][..i] == kinds[..i];
      own, refs := LineBody(own, refs, lines[i]);
      i := i + 1;
    }
    assert kinds[..|lines|] == kinds;
    if own.None? {
      return ["# Could not find this id"];
    }
    out := EdgeLoop(own.value, refs);
  }

  /** `main`, over the files in the order the directory listing gives
      them. */
  method ReportGraphviz(files: seq<seq<string>>) returns (out: seq<string>)
    ensures out == Diagram(files)
  {
    var body: seq<string> := [];
    for f := 0 to |files|
      invariant Gather(files[..f], FileLines) == Success(body)
    {
      GatherStep(files, FileLines, f, body);
      var more := ReadIdsLoop(files[f]);
      body := body + more;
    }
    assert files[..|files|] == files;
    out := Header + body + ["}"];
  }
}
