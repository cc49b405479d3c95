/** What the two copies of the published-header builder share: the metadata
    format entries of the settings, the evaluation of their templates in
    order, and the `---`-delimited block the entries are joined into. */
module Metadata {
  import opened Results
  import opened JsText
  import opened Template

  /** One entry of `settings.metadataFormats`. */
  datatype MetadataFormat = MetadataFormat(name: string, template: string)

  /** The templates of `formats` evaluated in order.  Evaluation stops at
      the first template that fails, and the whole fails with its error;
      otherwise there is one value per format, in format order. */
  function EvaluateFormats(ev: Evaluator, vars: Variables, formats: seq<MetadataFormat>): (r: Result<seq<string>>)
    ensures r.Ok? <==> forall i :: 0 <= i < |formats| ==> EvalTemplate(ev, vars, formats[i].template).Ok?
    ensures r.Ok? ==> |r.value| == |formats|
    ensures r.Ok? ==> forall i :: 0 <= i < |formats| ==> EvalTemplate(ev, vars, formats[i].template) == Ok(r.value[i])
    ensures r.Err? ==> exists i :: 0 <= i < |formats| && EvalTemplate(ev, vars, formats[i].template) == Err(r.error)
                                   && forall j :: 0 <= j < i ==> EvalTemplate(ev, vars, formats[j].template).Ok?
    decreases |formats|
  {
    if formats == [] then Ok([])
    else
      match EvalTemplate(ev, vars, formats[0].template)
      case Err(m) => Err(m)
      case Ok(v) =>
        assert forall i :: 1 <= i < |formats| ==> formats[1..][i - 1] == formats[i];
        match EvaluateFormats(ev, vars, formats[1..])
        case Err(m) => Err(m)
        case Ok(values) => Ok([v] + values)
  }

  /** The error of the evaluation is that of the first failing template. */
  lemma EvaluateFormatsFirstError(ev: Evaluator, vars: Variables, formats: seq<MetadataFormat>, i: nat, m: string)
    requires i < |formats| && EvalTemplate(ev, vars, formats[i].template) == Err(m)
    requires forall j :: 0 <= j < i ==> EvalTemplate(ev, vars, formats[j].template).Ok?
    ensures EvaluateFormats(ev, vars, formats) == Err(m)
  {
    var r := EvaluateFormats(ev, vars, formats);
    var k :| 0 <= k < |formats| && EvalTemplate(ev, vars, formats[k].template) == Err(r.error)
             && forall j :: 0 <= j < k ==> EvalTemplate(ev, vars, formats[j].template).Ok?;
    assert !EvalTemplate(ev, vars, formats[i].template).Ok?;
    assert !(i < k) && !(k < i);
  }

  /** When every template succeeds, the values are theirs, in order. */
  lemma EvaluateFormatsValues(ev: Evaluator, vars: Variables, formats: seq<MetadataFormat>, values: seq<string>)
    requires |values| == |formats|
    requires forall j :: 0 <= j < |formats| ==> EvalTemplate(ev, vars, formats[j].template) == Ok(values[j])
    ensures EvaluateFormats(ev, vars, formats) == Ok(values)
  {
    var r := EvaluateFormats(ev, vars, formats);
    assert r.Ok?;
    assert forall j :: 0 <= j < |formats| ==> r.value[j] == values[j];
    assert r.value == values;
  }

  /** The template made of the single span `{{e}}`. */
  function Braced(e: string): string
  {
    "{{" + e + "}}"
  }

  /** `DEFAULT_SETTINGS.metadataFormats`: the formats a fresh installation
      starts with. */
  const DefaultMetadataFormats: seq<MetadataFormat> := [
    MetadataFormat("title", Braced("file.basename")),
    MetadataFormat("author", Braced("frontmatter.author")),
    MetadataFormat("pubDatetime", Braced("pubTime.format()")),
    MetadataFormat("modDatetime", Braced("modTime.format()")),
    MetadataFormat("featured", "false"),
    MetadataFormat("slug", Braced("frontmatter.slug")),
    MetadataFormat("draft", Braced("frontmatter.draft")),
    MetadataFormat("tags", Braced("array(frontmatter.tags)")),
    MetadataFormat("description", Braced("frontmatter.description"))
  ]

  /** The expression inside each default template; `featured` has none and
      its place holds the empty text. */
  const DefaultExpressions: seq<string> := [
    "file.basename", "frontmatter.author", "pubTime.format()", "modTime.format()", "",
    "frontmatter.slug", "frontmatter.draft", "array(frontmatter.tags)", "frontmatter.description"
  ]

  /** An expression with no `}` and no line terminator. */
  predicate PlainExpr(e: string) {
    forall j :: 0 <= j < |e| ==> e[j] != '}' && !IsLineTerminator(e[j])
  }

  lemma PlainExprMatched(e: string)
    requires PlainExpr(e)
    ensures MatchedExpr(e)
  {
    forall j | 0 <= j < |e| ensures !CloserAt(e + "}", j) {
      assert (e + "}")[j] == e[j];
    }
  }

  lemma DefaultExpressionPlain(i: nat)
    requires i < |DefaultExpressions|
    ensures PlainExpr(DefaultExpressions[i])
  {
    if i < 4 {
      TimeExpressionsPlain(i);
    } else {
      FrontmatterExpressionsPlain(i);
    }
  }

  lemma TimeExpressionsPlain(i: nat)
    requires i < 4
    ensures PlainExpr(DefaultExpressions[i])
  {
    match i
    case 0 => assert PlainExpr("file.basename");
    case 1 => assert PlainExpr("frontmatter.author");
    case 2 => assert PlainExpr("pubTime.format()");
    case 3 => assert PlainExpr("modTime.format()");
  }

  lemma FrontmatterExpressionsPlain(i: nat)
    requires 4 <= i < 9
    ensures PlainExpr(DefaultExpressions[i])
  {
    match i
    case 4 => assert PlainExpr("");
    case 5 => assert PlainExpr("frontmatter.slug");
    case 6 => assert PlainExpr("frontmatter.draft");
    case 7 => assert PlainExpr("array(frontmatter.tags)");
    case 8 => assert PlainExpr("frontmatter.description");
  }

  /** Under the default formats `featured` is always the text `false`, and
      every other entry is the value of its single expression, failing as
      that expression fails. */
  lemma DefaultFormatsEvaluate(ev: Evaluator, vars: Variables)
    ensures |DefaultMetadataFormats| == |DefaultExpressions| == 9
    ensures EvalTemplate(ev, vars, DefaultMetadataFormats[4].template) == Ok("false")
    ensures forall i :: 0 <= i < 9 && i != 4 ==>
              EvalTemplate(ev, vars, DefaultMetadataFormats[i].template) == EvalPart(ev, vars, DefaultExpressions[i])
  {
    forall j ensures !OpenerAt("false", j) {
      if 0 <= j < 5 { assert "false"[j] != '{'; }
    }
    TemplateWithoutSpanUnchanged(ev, vars, "false");
    forall i | 0 <= i < 9 && i != 4
      ensures EvalTemplate(ev, vars, DefaultMetadataFormats[i].template) == EvalPart(ev, vars, DefaultExpressions[i])
    {
      var e := DefaultExpressions[i];
      assert DefaultMetadataFormats[i].template == Braced(e);
      DefaultExpressionPlain(i);
      PlainExprMatched(e);
      SingleSpan(ev, vars, e);
    }
  }

  /** `---\n<entries joined by \n>\n---\n`. */
  function Block(entries: seq<string>): string
  {
    "---\n" + Join(entries, "\n") + "\n---\n"
  }

  /** `s.split("\n")`. */
  function Lines(s: string): (r: seq<string>)
    ensures |r| >= 1
    decreases |s|
  {
    if '\n' !in s then [s]
    else
      var i := FirstNewline(s);
      [s[..i]] + Lines(s[i + 1..])
  }

  function FirstNewline(s: string): (i: nat)
    requires '\n' in s
    ensures i < |s| && s[i] == '\n' && '\n' !in s[..i]
  {
    if s[0] == '\n' then 0
    else
      assert '\n' in s[1..] by {
        var k :| 0 <= k < |s| && s[k] == '\n';
        assert s[1..][k - 1] == '\n';
      }
      var i := 1 + FirstNewline(s[1..]);
      assert s[..i] == [s[0]] + s[1..][..i - 1];
      i
  }

  lemma ConcatAssociates(a: seq<string>, b: seq<string>, c: seq<string>)
    ensures (a + b) + c == a + (b + c)
  {
  }

  lemma BlockSplits(j: string)
    ensures "---\n" + j + "\n---\n" == "---" + "\n" + (j + "\n" + ("---" + "\n" + ""))
  {
  }

  /** A text without a line feed. */
  predicate SingleLine(s: string) {
    '\n' !in s
  }

  lemma LinesCons(a: string, b: string)
    requires SingleLine(a)
    ensures Lines(a + "\n" + b) == [a] + Lines(b)
  {
    var s := a + "\n" + b;
    assert s[|a|] == '\n';
    var i := FirstNewline(s);
    assert i == |a|;
    assert s[..i] == a;
    assert s[i + 1..] == b;
  }

  /** Lines without a line feed, joined by `\n`, split back into the same
      lines followed by whatever came after them. */
  lemma JoinCons(entries: seq<string>, rest: string)
    requires |entries| >= 2
    ensures Join(entries, "\n") + "\n" + rest
            == entries[0] + "\n" + (Join(entries[1..], "\n") + "\n" + rest)
  {
  }

  lemma {:induction false} LinesOfJoin(entries: seq<string>, rest: string)
    requires entries != []
    requires forall i :: 0 <= i < |entries| ==> SingleLine(entries[i])
    ensures Lines(Join(entries, "\n") + "\n" + rest) == entries + Lines(rest)
  {
    var head := entries[0];
    if |entries| == 1 {
      LinesCons(head, rest);
      assert entries == [head];
    } else {
      var after := Join(entries[1..], "\n") + "\n" + rest;
      JoinCons(entries, rest);
      LinesCons(head, after);
      assert forall i :: 0 <= i < |entries| - 1 ==> entries[1..][i] == entries[i + 1];
      LinesOfJoin(entries[1..], rest);
      ConcatAssociates([head], entries[1..], Lines(rest));
      assert entries == [head] + entries[1..];
    }
  }

  /** The block's lines are the opening `---`, one line per entry in order
      (one empty line when there are no entries), the closing `---` and the
      empty text after the final line feed, whenever no entry spans lines. */
  lemma BlockLines(entries: seq<string>)
    requires forall i :: 0 <= i < |entries| ==> SingleLine(entries[i])
    ensures Lines(Block(entries)) == ["---"] + (if entries == [] then [""] else entries) + ["---", ""]
  {
    var closing := "---" + "\n" + "";
    assert Lines("") == [""];
    LinesCons("---", "");
    assert Lines(closing) == ["---", ""];
    var body := if entries == [] then [""] else entries;
    if entries == [] {
      LinesCons("", closing);
    } else {
      LinesOfJoin(entries, closing);
    }
    assert Lines(Join(entries, "\n") + "\n" + closing) == body + ["---", ""];
    BlockSplits(Join(entries, "\n"));
    LinesCons("---", Join(entries, "\n") + "\n" + closing);
    ConcatAssociates(["---"], body, ["---", ""]);
  }

  /** The block starts with `---\n` and ends with `\n---\n`; with no entries
      it is exactly `---\n\n---\n`. */
  lemma BlockDelimiters(entries: seq<string>)
    ensures |Block(entries)| >= 9
    ensures Block(entries)[..4] == "---\n"
    ensures Block(entries)[|Block(entries)| - 5..] == "\n---\n"
    ensures entries == [] ==> Block(entries) == "---\n\n---\n"
  {
  }
}
