/** src/handlers.ts: the `ContentHandler` that builds the published header
    of a note from the metadata formats and cuts the note's own frontmatter
    off its body, and the `NOTE_META` frontmatter keys. */
module Handlers {
  import opened Results
  import opened JsText
  import opened Vault
  import opened Template
  import opened Metadata

  /** `NOTE_META`: the frontmatter keys the publisher reads and writes. */
  const ViewUrlKey := "content-publish-url"
  const AutoSlugKey := "content-auto-slug"
  const PubTsKey := "content-publish-ts"
  const ModTsKey := "content-update-ts"

  // ---------------------------------------------------------------------
  // `.replace(/\s+\n/g, '\n')`

  /** No line feed is preceded by whitespace: no trailing whitespace on any
      line but the last, and no blank line. */
  predicate NoSpaceBeforeNewline(s: string) {
    forall i :: 1 <= i < |s| && s[i] == '\n' ==> !IsSpace(s[i - 1])
  }

  /** A line feed can stand only at the front. */
  predicate NewlineOnlyFirst(s: string) {
    forall i :: 1 <= i < |s| ==> s[i] != '\n'
  }

  /** The index of the last line feed of `run`. */
  function LastNewline(run: string): (r: Option<nat>)
    ensures r.Some? ==> r.value < |run| && run[r.value] == '\n'
    ensures r.Some? ==> forall j :: r.value < j < |run| ==> run[j] != '\n'
    ensures r.None? ==> forall j :: 0 <= j < |run| ==> run[j] != '\n'
  {
    if run == [] then None
    else if run[|run| - 1] == '\n' then Some(|run| - 1)
    else LastNewline(run[..|run| - 1])
  }

  /** What the global replace does to one maximal run of whitespace.  At
      each start position the greedy `\s+` takes the whole rest of the run
      and gives back characters until a `\n` follows, so the match ends at
      the run's last line feed, provided at least one whitespace character
      stands before it.  That match becomes a single `\n` and the scan goes
      on after it, where the run holds no more line feed.  A run whose only
      line feed is its first character is left alone. */
  function CollapseRun(run: string): (r: string)
    requires run != [] && IsBlank(run)
    ensures r != [] && IsBlank(r) && NewlineOnlyFirst(r)
    ensures '\n' in r <==> '\n' in run
    ensures '\n' in run ==> r[0] == '\n'
    ensures '\n' !in run[1..] ==> r == run
    ensures '\n' in run[1..] ==>
              && r[0] == '\n' && |r| < |run| && run[|run| - |r|] == '\n'
              && r[1..] == run[|run| - |r| + 1..]
  {
    assert '\n' in run[1..] ==> exists j :: 1 <= j < |run| && run[j] == '\n' by {
      if '\n' in run[1..] {
        var j :| 0 <= j < |run[1..]| && run[1..][j] == '\n';
        assert run[j + 1] == '\n';
      }
    }
    match LastNewline(run)
    case Some(m) => if m >= 1 then "\n" + run[m + 1..] else run
    case None => run
  }

  lemma JoinNoSpaceBeforeNewline(a: string, b: string)
    requires NoSpaceBeforeNewline(a) && NoSpaceBeforeNewline(b)
    requires a == [] || b == [] || b[0] != '\n' || !IsSpace(a[|a| - 1])
    ensures NoSpaceBeforeNewline(a + b)
  {
    var s := a + b;
    forall i | 1 <= i < |s| && s[i] == '\n' ensures !IsSpace(s[i - 1]) {
      if i > |a| {
        assert s[i] == b[i - |a|] && s[i - 1] == b[i - 1 - |a|];
      } else if i < |a| {
        assert s[i] == a[i] && s[i - 1] == a[i - 1];
      }
    }
  }

  /** `s.replace(/\s+\n/g, '\n')`: whitespace runs are rewritten one by
      one, every other character is kept.  No line feed of the result is
      preceded by whitespace. */
  function CollapseSpaceBeforeNewline(s: string): (r: string)
    ensures NoSpaceBeforeNewline(r)
    ensures s != [] && !IsSpace(s[0]) ==> r != [] && r[0] == s[0]
    decreases |s|
  {
    if s == [] then []
    else if !IsSpace(s[0]) then
      var rest := CollapseSpaceBeforeNewline(s[1..]);
      JoinNoSpaceBeforeNewline([s[0]], rest);
      [s[0]] + rest
    else
      var n := LeadingSpaces(s);
      var run := CollapseRun(s[..n]);
      var rest := CollapseSpaceBeforeNewline(s[n..]);
      JoinNoSpaceBeforeNewline(run, rest);
      run + rest
  }

  /** The rewrite touches whitespace only. */
  lemma {:induction false} CollapseKeepsNonSpace(s: string)
    ensures NonSpace(CollapseSpaceBeforeNewline(s)) == NonSpace(s)
    decreases |s|
  {
    if s != [] {
      if !IsSpace(s[0]) {
        CollapseKeepsNonSpace(s[1..]);
        NonSpaceAppend([s[0]], CollapseSpaceBeforeNewline(s[1..]));
        assert s == [s[0]] + s[1..];
        NonSpaceAppend([s[0]], s[1..]);
      } else {
        var n := LeadingSpaces(s);
        var run := CollapseRun(s[..n]);
        CollapseKeepsNonSpace(s[n..]);
        NonSpaceAppend(run, CollapseSpaceBeforeNewline(s[n..]));
        NonSpaceOfBlank(run);
        assert s == s[..n] + s[n..];
        NonSpaceAppend(s[..n], s[n..]);
        NonSpaceOfBlank(s[..n]);
      }
    }
  }

  lemma NoSpaceBeforeNewlineSuffix(s: string, k: nat)
    requires k <= |s| && NoSpaceBeforeNewline(s)
    ensures NoSpaceBeforeNewline(s[k..])
  {
    forall i | 1 <= i < |s[k..]| && s[k..][i] == '\n' ensures !IsSpace(s[k..][i - 1]) {
      assert s[k..][i] == s[i + k] && s[k..][i - 1] == s[i + k - 1];
    }
  }

  /** A leading whitespace run that no line feed follows except at its
      front is left as it is. */
  lemma RunUnchanged(s: string)
    requires s != [] && IsSpace(s[0]) && NoSpaceBeforeNewline(s)
    ensures CollapseRun(s[..LeadingSpaces(s)]) == s[..LeadingSpaces(s)]
  {
    var n := LeadingSpaces(s);
    var run := s[..n];
    forall j | 1 <= j < n ensures run[j] != '\n' {
      assert IsSpace(run[j - 1]) && run[j] == s[j] && run[j - 1] == s[j - 1];
    }
  }

  /** A text in which no line feed follows whitespace is left as it is. */
  lemma {:induction false} CollapseUnchanged(s: string)
    requires NoSpaceBeforeNewline(s)
    ensures CollapseSpaceBeforeNewline(s) == s
    decreases |s|
  {
    if s != [] {
      if !IsSpace(s[0]) {
        NoSpaceBeforeNewlineSuffix(s, 1);
        CollapseUnchanged(s[1..]);
        assert s == [s[0]] + s[1..];
      } else {
        var n := LeadingSpaces(s);
        RunUnchanged(s);
        NoSpaceBeforeNewlineSuffix(s, n);
        CollapseUnchanged(s[n..]);
        assert s == s[..n] + s[n..];
      }
    }
  }

  /** Whitespace before a line feed becomes that line feed: the break
      between the two lines stays. */
  lemma CollapseExample()
    ensures CollapseSpaceBeforeNewline("a \nb") == "a\nb"
  {
    var s := "a \nb";
    assert s[1..][..2] == " \n";
    LeadingSpacesAt(s[1..], 2);
    assert LastNewline(" \n") == Some(1);
    assert s[1..][2..] == "b";
    assert CollapseSpaceBeforeNewline("b") == "b";
  }

  /** The line structure of a text: its non-whitespace characters in
      order, with a single line feed in place of each maximal whitespace run
      that holds a line feed, and nothing for a run without one. */
  function Skeleton(s: string): (k: string)
    ensures s != [] && !IsSpace(s[0]) ==> k != [] && k[0] == s[0]
    decreases |s|
  {
    if s == [] then []
    else if !IsSpace(s[0]) then [s[0]] + Skeleton(s[1..])
    else
      var n := LeadingSpaces(s);
      (if '\n' in s[..n] then "\n" else "") + Skeleton(s[n..])
  }

  /** A skeleton holds no whitespace but line feeds, and never two line
      feeds in a row. */
  lemma {:induction false} SkeletonShape(s: string)
    ensures forall i :: 0 <= i < |Skeleton(s)| ==> Skeleton(s)[i] == '\n' || !IsSpace(Skeleton(s)[i])
    ensures forall i :: 1 <= i < |Skeleton(s)| && Skeleton(s)[i] == '\n' ==> Skeleton(s)[i - 1] != '\n'
    decreases |s|
  {
    if s == [] {
    } else if !IsSpace(s[0]) {
      SkeletonShape(s[1..]);
      var rest := Skeleton(s[1..]);
      assert Skeleton(s) == [s[0]] + rest;
      assert forall i :: 1 <= i < |Skeleton(s)| ==> Skeleton(s)[i] == rest[i - 1];
    } else {
      var n := LeadingSpaces(s);
      SkeletonShape(s[n..]);
      var rest := Skeleton(s[n..]);
      var k := Skeleton(s);
      assert forall i :: |k| - |rest| <= i < |k| ==> k[i] == rest[i - (|k| - |rest|)];
    }
  }

  lemma DropAppend(u: string, v: string, n: nat)
    requires n <= |u|
    ensures (u + v)[n..] == u[n..] + v
    ensures (u + v)[..n] == u[..n]
  {
  }

  lemma StringsAssociate(a: string, b: string, c: string)
    ensures (a + b) + c == a + (b + c)
    ensures a + [] == a
  {
  }

  lemma SkeletonRun(s: string, n: nat)
    requires 0 < n <= |s| && IsBlank(s[..n]) && (n < |s| ==> !IsSpace(s[n]))
    ensures Skeleton(s) == (if '\n' in s[..n] then "\n" else "") + Skeleton(s[n..])
  {
    LeadingSpacesAt(s, n);
  }

  /** Skeletons join where the texts meet at a non-whitespace character. */
  lemma {:induction false} SkeletonAppend(u: string, v: string)
    requires u == [] || v == [] || !IsSpace(u[|u| - 1]) || !IsSpace(v[0])
    ensures Skeleton(u + v) == Skeleton(u) + Skeleton(v)
    decreases |u|, 1
  {
    var w := u + v;
    if u == [] {
      assert w == v;
    } else if v == [] {
      assert w == u;
    } else if !IsSpace(u[0]) {
      DropAppend(u, v, 1);
      assert u[1..] == [] || !IsSpace(u[1..][|u[1..]| - 1]) || !IsSpace(v[0]);
      SkeletonAppend(u[1..], v);
      assert w[0] == u[0];
    } else {
      SkeletonAppendRun(u, v);
    }
  }

  /** `SkeletonAppend` where `u` opens with a whitespace run. */
  lemma {:induction false} SkeletonAppendRun(u: string, v: string)
    requires u != [] && v != [] && IsSpace(u[0])
    requires !IsSpace(u[|u| - 1]) || !IsSpace(v[0])
    ensures Skeleton(u + v) == Skeleton(u) + Skeleton(v)
    decreases |u|, 0
  {
    var w := u + v;
    var n := LeadingSpaces(u);
    DropAppend(u, v, n);
    var gap := if '\n' in u[..n] then "\n" else "";
    if n < |u| {
      assert w[n] == u[n];
      SkeletonRun(w, n);
      SkeletonRun(u, n);
      assert !IsSpace(u[n..][|u[n..]| - 1]) || !IsSpace(v[0]);
      SkeletonAppend(u[n..], v);
      var tail := Skeleton(u[n..]);
      assert Skeleton(w) == gap + (tail + Skeleton(v));
      assert Skeleton(u) == gap + tail;
      StringsAssociate(gap, tail, Skeleton(v));
    } else {
      assert w[n] == v[0];
      SkeletonRun(w, n);
      SkeletonRun(u, n);
      assert w[n..] == v && u[n..] == [];
      StringsAssociate(gap, [], []);
      assert Skeleton(u) == gap;
    }
  }

  /** A blank text has one line feed of skeleton if it holds a line feed,
      none otherwise. */
  lemma SkeletonOfBlank(b: string)
    requires IsBlank(b)
    ensures Skeleton(b) == if '\n' in b then "\n" else ""
  {
    if b != [] {
      assert b[..|b|] == b;
      LeadingSpacesAt(b, |b|);
      assert b[|b|..] == [];
    }
  }

  /** The rewrite keeps the line structure: every non-whitespace character,
      in order, and a line break wherever one separated them. */
  lemma {:induction false} CollapseKeepsSkeleton(s: string)
    ensures Skeleton(CollapseSpaceBeforeNewline(s)) == Skeleton(s)
    decreases |s|
  {
    if s != [] {
      if !IsSpace(s[0]) {
        var rest := CollapseSpaceBeforeNewline(s[1..]);
        CollapseKeepsSkeleton(s[1..]);
        SkeletonAppend([s[0]], rest);
        SkeletonAppend([s[0]], []);
        assert [s[0]] + [] == [s[0]];
      } else {
        var n := LeadingSpaces(s);
        var run := CollapseRun(s[..n]);
        var rest := CollapseSpaceBeforeNewline(s[n..]);
        CollapseKeepsSkeleton(s[n..]);
        SkeletonAppend(run, rest);
        SkeletonOfBlank(run);
      }
    }
  }

  /** The skeleton with the line feed it may have at either end dropped. */
  function DropOuterLineFeeds(k: string): string {
    var front := if k != [] && k[0] == '\n' then k[1..] else k;
    if front != [] && front[|front| - 1] == '\n' then front[..|front| - 1] else front
  }

  /** A text with non-whitespace ends keeps both ends in its skeleton. */
  lemma SkeletonEnds(t: string)
    requires t != [] && !IsSpace(t[0]) && !IsSpace(t[|t| - 1])
    ensures Skeleton(t) != [] && Skeleton(t)[0] == t[0]
    ensures Skeleton(t)[|Skeleton(t)| - 1] == t[|t| - 1]
  {
    var init, last := t[..|t| - 1], t[|t| - 1];
    assert t == init + [last];
    SkeletonAppend(init, [last]);
    assert Skeleton([last]) == [last] + Skeleton([]);
  }

  lemma DropOuterLineFeedsOf(x: string, k: string, y: string)
    requires x == [] || x == "\n"
    requires y == [] || y == "\n"
    requires k != [] && k[0] != '\n' && k[|k| - 1] != '\n'
    ensures DropOuterLineFeeds(x + k + y) == k
  {
    var front := if x + k + y != [] && (x + k + y)[0] == '\n' then (x + k + y)[1..] else x + k + y;
    assert front == k + y;
    if y == [] {
      assert k + y == k;
    } else {
      assert (k + y)[..|k + y| - 1] == k;
    }
  }

  /** The skeleton of a text between blank margins is the skeleton of the
      whole with the margins' line feeds dropped. */
  lemma SkeletonOfParts(a: string, t: string, c: string)
    requires IsBlank(a) && IsBlank(c)
    requires t == [] || (!IsSpace(t[0]) && !IsSpace(t[|t| - 1]))
    ensures Skeleton(t) == DropOuterLineFeeds(Skeleton(a + t + c))
  {
    if t == [] {
      BlankAppend(a, c);
      assert a + t + c == a + c;
      SkeletonOfBlank(a + c);
    } else {
      SkeletonOfMargins(a, t, c);
      SkeletonOfBlank(a);
      SkeletonOfBlank(c);
      SkeletonEnds(t);
      DropOuterLineFeedsOf(Skeleton(a), Skeleton(t), Skeleton(c));
    }
  }

  lemma SkeletonOfMargins(a: string, t: string, c: string)
    requires IsBlank(a) && IsBlank(c)
    requires t != [] && !IsSpace(t[0]) && !IsSpace(t[|t| - 1])
    ensures Skeleton(a + t + c) == Skeleton(a) + Skeleton(t) + Skeleton(c)
  {
    SkeletonAppend(a, t + c);
    SkeletonAppend(t, c);
    StringsAssociate(a, t, c);
    StringsAssociate(Skeleton(a), Skeleton(t), Skeleton(c));
  }

  /** Trimming drops the line breaks before the first and after the last
      non-whitespace character and keeps all others. */
  lemma SkeletonOfTrim(s: string)
    ensures Skeleton(Trim(s)) == DropOuterLineFeeds(Skeleton(s))
  {
    TrimSplits(s);
    SkeletonOfParts(s[..LeadingSpaces(s)], Trim(s), s[LeadingSpaces(s) + |Trim(s)|..]);
  }

  // ---------------------------------------------------------------------
  // Header entries

  /** A header line as the newer builder writes it: no whitespace at
      either end and none before a line feed. */
  predicate CleanEntry(s: string) {
    && (s == [] || (!IsSpace(s[0]) && !IsSpace(s[|s| - 1])))
    && NoSpaceBeforeNewline(s)
  }

  /** One published entry: `${name}: ${value}` with whitespace before each
      line feed collapsed, then trimmed. */
  function Entry(name: string, value: string): string
  {
    Trim(CollapseSpaceBeforeNewline(name + ": " + value))
  }

  /** An entry is clean and holds exactly the non-whitespace characters of
      `name`, `:` and `value`, in order. */
  lemma EntryShape(name: string, value: string)
    ensures CleanEntry(Entry(name, value))
    ensures NonSpace(Entry(name, value)) == NonSpace(name) + ":" + NonSpace(value)
    ensures Skeleton(Entry(name, value)) == DropOuterLineFeeds(Skeleton(name + ": " + value))
  {
    var line := name + ": " + value;
    var c := CollapseSpaceBeforeNewline(line);
    TrimKeepsClean(c);
    TrimKeepsNonSpace(c);
    CollapseKeepsNonSpace(line);
    NonSpaceOfLine(name, value);
    SkeletonOfTrim(c);
    CollapseKeepsSkeleton(line);
  }

  /** Trimming a text with no whitespace before a line feed keeps it so. */
  lemma TrimKeepsClean(c: string)
    requires NoSpaceBeforeNewline(c)
    ensures CleanEntry(Trim(c))
  {
    var e := Trim(c);
    var lead := LeadingSpaces(c);
    assert e == c[lead..lead + |e|];
    assert forall k :: 0 <= k < |e| ==> e[k] == c[lead + k];
    forall i | 1 <= i < |e| && e[i] == '\n' ensures !IsSpace(e[i - 1]) {
      assert e[i] == c[lead + i] && e[i - 1] == c[lead + i - 1];
    }
  }

  lemma NonSpaceOfLine(name: string, value: string)
    ensures NonSpace(name + ": " + value) == NonSpace(name) + ":" + NonSpace(value)
  {
    NonSpaceAppend(name + ": ", value);
    NonSpaceAppend(name, ": ");
    assert NonSpace(": ") == ":" by {
      assert ": "[1..] == " " && " "[1..] == [];
    }
  }

  /** A line that is already clean is written unchanged. */
  lemma EntryOfCleanLine(name: string, value: string)
    requires CleanEntry(name + ": " + value)
    ensures Entry(name, value) == name + ": " + value
  {
    CollapseUnchanged(name + ": " + value);
    TrimUnchanged(name + ": " + value);
  }

  function Entries(formats: seq<MetadataFormat>, values: seq<string>): (es: seq<string>)
    requires |values| == |formats|
    ensures |es| == |formats|
    ensures forall i :: 0 <= i < |es| ==> es[i] == Entry(formats[i].name, values[i])
  {
    seq(|formats|, i requires 0 <= i < |formats| => Entry(formats[i].name, values[i]))
  }

  /** `getPublishedYAML(file)`: a fresh metadata processor for the file
      (its frontmatter taken from the metadata cache) evaluates the format
      templates in order.  The first failing template aborts the build with
      its error's message; otherwise the header is the block of one entry
      per format, in format order. */
  method PublishedYAML(ev: Evaluator, file: NoteFile, cache: MetadataCache, formats: seq<MetadataFormat>)
    returns (r: Result<string>)
    ensures var values := EvaluateFormats(ev, NoteVariableMap(file, CachedFrontmatter(cache, file)), formats);
            values.Ok? ==> r == Ok(Block(Entries(formats, values.value)))
    ensures var values := EvaluateFormats(ev, NoteVariableMap(file, CachedFrontmatter(cache, file)), formats);
            values.Err? ==> r == Err(values.error)
  {
    var vs := new NoteVariables(file, None);
    var process := new TemplateProcessor.ForNote(vs, cache);
    var metadatas := FormatEntries(ev, process.variables, formats);
    match metadatas
    case Err(m) => r := Err(m);
    case Ok(es) => r := Ok(Block(es));
  }

  /** The `forEach` over the formats: the templates are evaluated in order
      and the first that fails ends the whole with its error; otherwise
      there is one entry per format, in order. */
  method FormatEntries(ev: Evaluator, vars: Variables, formats: seq<MetadataFormat>)
    returns (r: Result<seq<string>>)
    ensures EvaluateFormats(ev, vars, formats).Ok? ==> r == Ok(Entries(formats, EvaluateFormats(ev, vars, formats).value))
    ensures EvaluateFormats(ev, vars, formats).Err? ==> r == Err(EvaluateFormats(ev, vars, formats).error)
  {
    var values: seq<string> := [];
    for i := 0 to |formats|
      invariant |values| == i
      invariant forall j :: 0 <= j < i ==> EvalTemplate(ev, vars, formats[j].template) == Ok(values[j])
    {
      match EvalTemplate(ev, vars, formats[i].template)
      case Err(m) =>
        EvaluateFormatsFirstError(ev, vars, formats, i, m);
        return Err(m);
      case Ok(v) =>
        values := values + [v];
    }
    EvaluateFormatsValues(ev, vars, formats, values);
    r := Ok(Entries(formats, values));
  }

  // ---------------------------------------------------------------------
  // `fileContent.replace(/^---[\s\S]+?---/, '').trim()`

  predicate FenceAt(s: string, k: int) {
    0 <= k && k + 3 <= |s| && s[k] == '-' && s[k + 1] == '-' && s[k + 2] == '-'
  }

  predicate FenceFree(s: string) {
    forall k :: 0 <= k < |s| ==> !FenceAt(s, k)
  }

  /** The first `---` at or after index `k`. */
  function FenceFrom(s: string, k: nat): (r: Option<nat>)
    ensures r.Some? ==> k <= r.value && FenceAt(s, r.value)
    ensures r.Some? ==> forall j :: k <= j < r.value ==> !FenceAt(s, j)
    ensures r.None? ==> forall j :: k <= j ==> !FenceAt(s, j)
    decreases |s| - k
  {
    if k + 3 > |s| then None
    else if FenceAt(s, k) then Some(k)
    else FenceFrom(s, k + 1)
  }

  /** Where the match of `/^---[\s\S]+?---/` ends: the text opens with
      `---`, at least one character follows, and the match runs to the end
      of the first `---` after that. */
  function FrontMatterEnd(s: string): (r: Option<nat>)
    ensures r.Some? ==> FenceAt(s, 0) && 7 <= r.value <= |s| && FenceAt(s, r.value - 3)
    ensures r.Some? ==> forall j :: 4 <= j < r.value - 3 ==> !FenceAt(s, j)
    ensures r.None? ==> !FenceAt(s, 0) || forall j :: 4 <= j ==> !FenceAt(s, j)
  {
    if FenceAt(s, 0) then
      match FenceFrom(s, 4)
      case Some(k) => Some(k + 3)
      case None => None
    else None
  }

  /** `getContentWithoutFrontMatter`: the read text without its leading
      `---…---` block, trimmed. */
  function BodyText(content: string): (r: string)
    ensures r == [] || (!IsSpace(r[0]) && !IsSpace(r[|r| - 1]))
  {
    match FrontMatterEnd(content)
    case Some(e) => Trim(content[e..])
    case None => Trim(content)
  }

  /** Text that does not open with `---` is only trimmed. */
  lemma BodyWithoutFence(content: string)
    requires !FenceAt(content, 0)
    ensures BodyText(content) == Trim(content)
    ensures NonSpace(BodyText(content)) == NonSpace(content)
  {
    TrimKeepsNonSpace(content);
  }

  /** Two fences with nothing between them are not a block: `------` is
      kept. */
  lemma SixDashesKept()
    ensures BodyText("------") == "------"
  {
    assert !FenceAt("------", 4) && !FenceAt("------", 5);
    assert FrontMatterEnd("------") == None;
    TrimUnchanged("------");
  }

  lemma {:induction false} JoinFenceFree(entries: seq<string>)
    requires forall i :: 0 <= i < |entries| ==> FenceFree(entries[i])
    ensures FenceFree(Join(entries, "\n"))
  {
    if |entries| > 1 {
      var e := entries[0];
      var tail := Join(entries[1..], "\n");
      JoinFenceFree(entries[1..]);
      var s := Join(entries, "\n");
      assert s == e + "\n" + tail;
      forall k | 0 <= k < |s| ensures !FenceAt(s, k) {
        if k + 3 <= |e| {
          assert FenceFree(entries[0]) && !FenceAt(e, k);
          assert s[k] == e[k] && s[k + 1] == e[k + 1] && s[k + 2] == e[k + 2];
        } else if k <= |e| {
          assert s[|e|] == '\n';
        } else if k + 3 <= |s| {
          assert !FenceAt(tail, k - |e| - 1);
          assert s[k] == tail[k - |e| - 1] && s[k + 1] == tail[k - |e|] && s[k + 2] == tail[k - |e| + 1];
        }
      }
    }
  }

  /** The stripper removes exactly a header the builder wrote, as long as
      no entry holds `---`: what follows the header is recovered, trimmed. */
  lemma StripsPublishedHeader(entries: seq<string>, body: string)
    requires forall i :: 0 <= i < |entries| ==> FenceFree(entries[i])
    ensures BodyText(Block(entries) + "\n" + body) == Trim(body)
  {
    var j := Join(entries, "\n");
    JoinFenceFree(entries);
    var s := Block(entries) + "\n" + body;
    assert s == "---\n" + j + "\n---\n\n" + body;
    var close := 5 + |j|;
    assert FenceAt(s, 0);
    assert s[4 + |j|] == '\n';
    assert FenceAt(s, close);
    forall k | 4 <= k < close ensures !FenceAt(s, k) {
      if k + 3 <= 4 + |j| {
        assert !FenceAt(j, k - 4);
        assert s[k] == j[k - 4] && s[k + 1] == j[k - 3] && s[k + 2] == j[k - 2];
      }
    }
    assert FenceFrom(s, 4) == Some(close);
    assert s[close + 3..] == "\n\n" + body;
    TrimBlankPrefix("\n\n", body);
  }

  /** Publishing twice is stable: stripping a published note's header gives
      back the body that was published. */
  lemma RepublishKeepsBody(entries: seq<string>, content: string)
    requires forall i :: 0 <= i < |entries| ==> FenceFree(entries[i])
    ensures BodyText(Block(entries) + "\n" + BodyText(content)) == BodyText(content)
  {
    StripsPublishedHeader(entries, BodyText(content));
    TrimUnchanged(BodyText(content));
  }
}
