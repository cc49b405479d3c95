/** src/content-handler.ts: the older `ContentHandler`, which writes each
    header entry exactly as its template evaluated, without the whitespace
    clean-up of src/handlers.ts.  Its body stripper is the same expression
    as the newer one and is `Handlers.BodyText`. */
module LegacyContentHandler {
  import opened Results
  import opened Vault
  import opened Template
  import opened Metadata
  import Handlers

  /** One entry, `${name}: ${value}`, untouched. */
  function RawEntry(name: string, value: string): string
  {
    name + ": " + value
  }

  function RawEntries(formats: seq<MetadataFormat>, values: seq<string>): (es: seq<string>)
    requires |values| == |formats|
    ensures |es| == |formats|
    ensures forall i :: 0 <= i < |es| ==> es[i] == RawEntry(formats[i].name, values[i])
  {
    seq(|formats|, i requires 0 <= i < |formats| => RawEntry(formats[i].name, values[i]))
  }

  /** `getPublishedYAML(file)`: the templates are evaluated in order with a
      fresh processor for the file; the first failure aborts with its
      message, otherwise the header holds one raw entry per format. */
  method PublishedYAML(ev: Evaluator, file: NoteFile, cache: MetadataCache, formats: seq<MetadataFormat>)
    returns (r: Result<string>)
    ensures var values := EvaluateFormats(ev, NoteVariableMap(file, CachedFrontmatter(cache, file)), formats);
            values.Ok? ==> r == Ok(Block(RawEntries(formats, values.value)))
    ensures var values := EvaluateFormats(ev, NoteVariableMap(file, CachedFrontmatter(cache, file)), formats);
            values.Err? ==> r == Err(values.error)
  {
    var vs := new NoteVariables(file, None);
    var process := new TemplateProcessor.ForNote(vs, cache);
    var vars := process.variables;
    var metadatas: seq<string> := [];
    ghost var values: seq<string> := [];
    for i := 0 to |formats|
      invariant |values| == i && |metadatas| == i
      invariant forall j :: 0 <= j < i ==> EvalTemplate(ev, vars, formats[j].template) == Ok(values[j])
      invariant forall j :: 0 <= j < i ==> metadatas[j] == RawEntry(formats[j].name, values[j])
    {
      match EvalTemplate(ev, vars, formats[i].template)
      case Err(m) =>
        EvaluateFormatsFirstError(ev, vars, formats, i, m);
        return Err(m);
      case Ok(v) =>
        metadatas := metadatas + [RawEntry(formats[i].name, v)];
        values := values + [v];
    }
    EvaluateFormatsValues(ev, vars, formats, values);
    assert metadatas == RawEntries(formats, values);
    r := Ok(Block(metadatas));
  }

  /** The two builders write the same header whenever every raw entry is
      already clean (no whitespace at its ends or before a line feed). */
  lemma HeadersAgreeWhenClean(formats: seq<MetadataFormat>, values: seq<string>)
    requires |values| == |formats|
    requires forall i :: 0 <= i < |formats| ==> Handlers.CleanEntry(RawEntry(formats[i].name, values[i]))
    ensures Block(Handlers.Entries(formats, values)) == Block(RawEntries(formats, values))
  {
    forall i | 0 <= i < |formats|
      ensures Handlers.Entries(formats, values)[i] == RawEntries(formats, values)[i]
    {
      Handlers.EntryOfCleanLine(formats[i].name, values[i]);
    }
    assert Handlers.Entries(formats, values) == RawEntries(formats, values);
  }

  /** The older builder can write what the newer one never does: a value
      ending in whitespace leaves it at the end of its line. */
  lemma RawEntryKeepsTrailingSpace()
    ensures RawEntry("title", "a ") == "title: a "
    ensures !Handlers.CleanEntry(RawEntry("title", "a "))
  {
    assert RawEntry("title", "a ")[8] == ' ';
  }
}
