/** The template engine of src/template.ts: a per-note variable record and
    the substitution of every `{{expr}}` span of a template by the value of
    `expr`.

    The expression language is JavaScript run through `new Function`; it is
    not modelled.  The evaluator is a parameter `ev` that says what running
    `return <expr>;` over the variables gives.  The model fixes two
    outcomes itself: a variable name that cannot be a parameter makes
    `new Function` throw a `SyntaxError`, and otherwise a body made only of
    whitespace, `return ;`, yields `undefined`. */
module Template {
  import opened Results
  import opened JsText
  import opened Vault

  /** A template variable: the note file, its (possibly missing)
      frontmatter, or a plain value set with `setVariable`. */
  datatype Value =
    | FileValue(file: NoteFile)
    | FrontmatterValue(frontmatter: Option<Frontmatter>)
    | Scalar(field: FieldValue)

  type Variables = map<string, Value>

  /** What calling the generated function gives: the string form of a
      defined value, `undefined`, or an error thrown with a message. */
  datatype JsOutcome = Defined(text: string) | Undefined | Threw(message: string)

  type Evaluator = (Variables, string) -> JsOutcome

  /** The message of the error `evalPart` throws on `undefined`. */
  function UndefinedMessage(expr: string): string
  {
    "The expression \"" + expr + "\" cannot be evaluated."
  }

  /** The words JavaScript reserves in non-strict code, which cannot name a
      parameter. */
  const ReservedWords: set<string> := {
    "break", "case", "catch", "class", "const", "continue", "debugger",
    "default", "delete", "do", "else", "enum", "export", "extends", "false",
    "finally", "for", "function", "if", "import", "in", "instanceof", "new",
    "null", "return", "super", "switch", "this", "throw", "true", "try",
    "typeof", "var", "void", "while", "with"}

  predicate IdentifierStart(c: char) {
    'a' <= c <= 'z' || 'A' <= c <= 'Z' || c == '$' || c == '_'
  }

  predicate IdentifierPart(c: char) {
    IdentifierStart(c) || '0' <= c <= '9'
  }

  /** A name `new Function` accepts as a parameter: an identifier that is
      not a reserved word. */
  predicate IsParameterName(name: string) {
    && name != [] && IdentifierStart(name[0])
    && (forall i :: 1 <= i < |name| ==> IdentifierPart(name[i]))
    && name !in ReservedWords
  }

  /** Every variable name can be a parameter of the generated function. */
  predicate ParameterNames(vars: Variables) {
    forall name :: name in vars ==> IsParameterName(name)
  }

  /** The message of the `SyntaxError` `new Function` throws when a
      variable name cannot be a parameter. */
  const ParameterSyntaxError := "SyntaxError"

  /** Calling `new Function(...names, 'return ' + expr)` over `vars`.  A
      variable name that cannot be a parameter makes the construction throw
      whatever the expression; otherwise `return ;` yields `undefined`, and
      any other body is the evaluator's. */
  function Run(ev: Evaluator, vars: Variables, expr: string): JsOutcome
  {
    if !ParameterNames(vars) then Threw(ParameterSyntaxError)
    else if IsBlank(expr) then Undefined
    else ev(vars, expr)
  }

  /** `evalPart`: the value of one expression, failing exactly when it is
      not a defined value; an `undefined` result fails with the message that
      names the expression, and so does every blank expression over names
      that can be parameters. */
  function EvalPart(ev: Evaluator, vars: Variables, expr: string): (r: Result<string>)
    ensures r.Ok? <==> Run(ev, vars, expr).Defined?
    ensures r.Ok? ==> r.value == Run(ev, vars, expr).text
    ensures Run(ev, vars, expr).Undefined? ==> r == Err(UndefinedMessage(expr))
    ensures Run(ev, vars, expr).Threw? ==> r == Err(Run(ev, vars, expr).message)
    ensures !ParameterNames(vars) ==> r == Err(ParameterSyntaxError)
    ensures ParameterNames(vars) && IsBlank(expr) ==> r == Err(UndefinedMessage(expr))
    ensures IsBlank(expr) ==> r.Err?
  {
    match Run(ev, vars, expr)
    case Defined(text) => Ok(text)
    case Undefined => Err(UndefinedMessage(expr))
    case Threw(message) => Err(message)
  }

  // ---------------------------------------------------------------------
  // Matching /{{(.*?)}}/g

  predicate OpenerAt(t: string, j: int) {
    0 <= j && j + 1 < |t| && t[j] == '{' && t[j + 1] == '{'
  }

  predicate CloserAt(t: string, j: int) {
    0 <= j && j + 1 < |t| && t[j] == '}' && t[j + 1] == '}'
  }

  /** Where the lazy `(.*?)}}` that starts at index `k` ends: the first
      `}}` at or after `k`, provided no line terminator comes before it. */
  function CloseAt(t: string, k: nat): (r: Option<nat>)
    requires k <= |t|
    ensures r.Some? ==> k <= r.value && CloserAt(t, r.value)
    ensures r.Some? ==> forall j :: k <= j < r.value ==> !CloserAt(t, j) && !IsLineTerminator(t[j])
    ensures r.None? ==> forall j :: k <= j && CloserAt(t, j) ==>
                          exists i :: k <= i < j && IsLineTerminator(t[i])
    decreases |t| - k
  {
    if k + 1 >= |t| then None
    else if t[k] == '}' && t[k + 1] == '}' then Some(k)
    else if IsLineTerminator(t[k]) then None
    else CloseAt(t, k + 1)
  }

  /** The span that starts at index 0 of `t`, if any, given by the index of
      its closing `}}`: the expression is `t[2..k]`. */
  function SpanAt(t: string): (r: Option<nat>)
    ensures r.Some? ==> OpenerAt(t, 0) && 2 <= r.value && CloserAt(t, r.value)
  {
    if |t| >= 2 && t[0] == '{' && t[1] == '{' then CloseAt(t, 2) else None
  }

  /** `evalTemplate`: `template.replace(/{{(.*?)}}/g, (m, expr) => evalPart(expr))`.
      The scan is left to right: where a span starts it is replaced and the
      scan resumes after its `}}`; elsewhere one character is kept.  The
      first failing span fails the whole template. */
  function EvalTemplate(ev: Evaluator, vars: Variables, t: string): (r: Result<string>)
    decreases |t|
  {
    if t == [] then Ok("")
    else
      match SpanAt(t)
      case Some(k) =>
        (match EvalPart(ev, vars, t[2..k])
         case Err(m) => Err(m)
         case Ok(v) =>
           match EvalTemplate(ev, vars, t[k + 2..])
           case Err(m) => Err(m)
           case Ok(rest) => Ok(v + rest))
      case None =>
        match EvalTemplate(ev, vars, t[1..])
        case Err(m) => Err(m)
        case Ok(rest) => Ok([t[0]] + rest)
  }

  // ---------------------------------------------------------------------
  // A template as a sequence of pieces

  /** A template, read as the regular expression reads it: characters kept
      as they are, and `{{expr}}` spans. */
  datatype Piece = Char(c: char) | Span(expr: string)

  function Parse(t: string): seq<Piece>
    decreases |t|
  {
    if t == [] then []
    else
      match SpanAt(t)
      case Some(k) => [Span(t[2..k])] + Parse(t[k + 2..])
      case None => [Char(t[0])] + Parse(t[1..])
  }

  function PieceText(p: Piece): string
  {
    match p
    case Char(c) => [c]
    case Span(e) => "{{" + e + "}}"
  }

  function Unparse(ps: seq<Piece>): string
  {
    if ps == [] then "" else PieceText(ps[0]) + Unparse(ps[1..])
  }

  /** The expression of a matched span: it holds no line terminator and no
      `}}`, and does not end in `}` (the span would have closed earlier). */
  predicate MatchedExpr(e: string) {
    && (forall j :: 0 <= j < |e| ==> !IsLineTerminator(e[j]))
    && (forall j :: 0 <= j < |e| ==> !CloserAt(e + "}", j))
  }

  /** Substituting `ev` into the pieces, left to right; the first failing
      span fails the whole. */
  function Render(ev: Evaluator, vars: Variables, ps: seq<Piece>): Result<string>
  {
    if ps == [] then Ok("")
    else
      var head := match ps[0]
        case Char(c) => Ok([c])
        case Span(e) => EvalPart(ev, vars, e);
      match head
      case Err(m) => Err(m)
      case Ok(h) =>
        match Render(ev, vars, ps[1..])
        case Err(m) => Err(m)
        case Ok(rest) => Ok(h + rest)
  }

  predicate SpanFails(ev: Evaluator, vars: Variables, p: Piece) {
    p.Span? && EvalPart(ev, vars, p.expr).Err?
  }

  lemma UnparseCons(p: Piece, ps: seq<Piece>)
    ensures Unparse([p] + ps) == PieceText(p) + Unparse(ps)
  {
    assert ([p] + ps)[1..] == ps;
  }

  /** A span at the front of `t` is `{{`, its expression and `}}`. */
  lemma SpanSplits(t: string, k: nat)
    requires SpanAt(t) == Some(k)
    ensures t == PieceText(Span(t[2..k])) + t[k + 2..]
  {
    assert t[..2] == "{{" && t[k..k + 2] == "}}";
    assert t == t[..2] + t[2..k] + t[k..k + 2] + t[k + 2..];
  }

  /** Reading a template as pieces loses nothing: the spans and the text
      between them, in order, make up the template again. */
  lemma {:induction false} ParseRoundTrip(t: string)
    ensures Unparse(Parse(t)) == t
    decreases |t|
  {
    if t != [] {
      match SpanAt(t)
      case Some(k) =>
        ParseRoundTrip(t[k + 2..]);
        UnparseCons(Span(t[2..k]), Parse(t[k + 2..]));
        SpanSplits(t, k);
      case None =>
        ParseRoundTrip(t[1..]);
        UnparseCons(Char(t[0]), Parse(t[1..]));
        assert t == [t[0]] + t[1..];
    }
  }

  lemma CloseAtMatchedExpr(t: string, k: nat)
    requires 2 <= k <= |t| && CloseAt(t, 2) == Some(k)
    ensures MatchedExpr(t[2..k])
  {
    var e := t[2..k];
    forall j | 0 <= j < |e| ensures !CloserAt(e + "}", j) {
      assert (e + "}")[j] == t[2 + j];
      assert (e + "}")[j + 1] == t[3 + j];
    }
  }

  /** Every span is the shortest one: its expression is a `MatchedExpr`. */
  lemma {:induction false} ParsedSpansMatched(t: string)
    ensures forall i :: 0 <= i < |Parse(t)| && Parse(t)[i].Span? ==> MatchedExpr(Parse(t)[i].expr)
    decreases |t|
  {
    if t != [] {
      match SpanAt(t)
      case Some(k) =>
        CloseAtMatchedExpr(t, k);
        ParsedSpansMatched(t[k + 2..]);
        assert forall i :: 1 <= i < |Parse(t)| ==> Parse(t)[i] == Parse(t[k + 2..])[i - 1];
      case None =>
        ParsedSpansMatched(t[1..]);
        assert forall i :: 1 <= i < |Parse(t)| ==> Parse(t)[i] == Parse(t[1..])[i - 1];
    }
  }

  /** The substitution pass is rendering of the parsed pieces. */
  lemma {:induction false} EvalTemplateRendersParse(ev: Evaluator, vars: Variables, t: string)
    ensures EvalTemplate(ev, vars, t) == Render(ev, vars, Parse(t))
    decreases |t|
  {
    if t != [] {
      match SpanAt(t)
      case Some(k) =>
        EvalTemplateRendersParse(ev, vars, t[k + 2..]);
        assert Parse(t)[1..] == Parse(t[k + 2..]);
      case None =>
        EvalTemplateRendersParse(ev, vars, t[1..]);
        assert Parse(t)[1..] == Parse(t[1..]);
    }
  }

  /** Rendering fails exactly when some span fails, and then with the error
      of the first failing span. */
  lemma {:induction false} RenderFails(ev: Evaluator, vars: Variables, ps: seq<Piece>)
    ensures Render(ev, vars, ps).Err? <==> exists i :: 0 <= i < |ps| && SpanFails(ev, vars, ps[i])
    ensures Render(ev, vars, ps).Err? ==>
              exists i :: 0 <= i < |ps| && SpanFails(ev, vars, ps[i])
                          && Render(ev, vars, ps).error == EvalPart(ev, vars, ps[i].expr).error
                          && forall j :: 0 <= j < i ==> !SpanFails(ev, vars, ps[j])
  {
    if ps != [] {
      RenderFails(ev, vars, ps[1..]);
      assert forall i :: 1 <= i < |ps| ==> ps[i] == ps[1..][i - 1];
      if SpanFails(ev, vars, ps[0]) {
      } else if Render(ev, vars, ps[1..]).Err? {
        var i :| 0 <= i < |ps[1..]| && SpanFails(ev, vars, ps[1..][i])
                 && Render(ev, vars, ps[1..]).error == EvalPart(ev, vars, ps[1..][i].expr).error
                 && forall j :: 0 <= j < i ==> !SpanFails(ev, vars, ps[1..][j]);
        assert SpanFails(ev, vars, ps[i + 1]);
      }
    }
  }

  /** Pieces without spans render to their own text. */
  lemma {:induction false} RenderWithoutSpans(ev: Evaluator, vars: Variables, ps: seq<Piece>)
    requires forall i :: 0 <= i < |ps| ==> ps[i].Char?
    ensures Render(ev, vars, ps) == Ok(Unparse(ps))
  {
    if ps != [] {
      RenderWithoutSpans(ev, vars, ps[1..]);
    }
  }

  /** `evalTemplate` fails exactly when one of the template's spans fails,
      with that first failing span's error, and gives no partial output. */
  lemma EvalTemplateFails(ev: Evaluator, vars: Variables, t: string)
    ensures EvalTemplate(ev, vars, t).Err? <==>
              exists i :: 0 <= i < |Parse(t)| && SpanFails(ev, vars, Parse(t)[i])
    ensures EvalTemplate(ev, vars, t).Err? ==>
              exists i :: 0 <= i < |Parse(t)| && SpanFails(ev, vars, Parse(t)[i])
                          && EvalTemplate(ev, vars, t).error == EvalPart(ev, vars, Parse(t)[i].expr).error
                          && forall j :: 0 <= j < i ==> !SpanFails(ev, vars, Parse(t)[j])
  {
    EvalTemplateRendersParse(ev, vars, t);
    RenderFails(ev, vars, Parse(t));
  }

  /** A span whose expression is blank, such as `{{}}`, always fails. */
  lemma BlankSpanFails(ev: Evaluator, vars: Variables, t: string, i: nat)
    requires i < |Parse(t)| && Parse(t)[i].Span? && IsBlank(Parse(t)[i].expr)
    ensures EvalTemplate(ev, vars, t).Err?
  {
    assert SpanFails(ev, vars, Parse(t)[i]);
    EvalTemplateFails(ev, vars, t);
  }

  /** A template that starts with `{{}}` fails, with the message for the
      empty expression when the variable names can be parameters. */
  lemma EmptySpanFails(ev: Evaluator, vars: Variables, rest: string)
    ensures ParameterNames(vars) ==> EvalTemplate(ev, vars, "{{}}" + rest) == Err(UndefinedMessage(""))
    ensures !ParameterNames(vars) ==> EvalTemplate(ev, vars, "{{}}" + rest) == Err(ParameterSyntaxError)
  {
    var t := "{{}}" + rest;
    assert CloseAt(t, 2) == Some(2);
    assert t[2..2] == "";
  }

  lemma {:induction false} ParseWithoutOpener(t: string)
    requires forall j :: !OpenerAt(t, j)
    ensures forall i :: 0 <= i < |Parse(t)| ==> Parse(t)[i].Char?
    decreases |t|
  {
    if t != [] {
      assert !OpenerAt(t, 0);
      assert forall j :: !OpenerAt(t[1..], j) by {
        forall j | OpenerAt(t[1..], j) ensures false { assert OpenerAt(t, j + 1); }
      }
      ParseWithoutOpener(t[1..]);
      assert forall i :: 1 <= i < |Parse(t)| ==> Parse(t)[i] == Parse(t[1..])[i - 1];
    }
  }

  lemma {:induction false} ParseWithoutCloser(t: string)
    requires forall j :: !CloserAt(t, j)
    ensures forall i :: 0 <= i < |Parse(t)| ==> Parse(t)[i].Char?
    decreases |t|
  {
    if t != [] {
      assert SpanAt(t).None?;
      assert forall j :: !CloserAt(t[1..], j) by {
        forall j | CloserAt(t[1..], j) ensures false { assert CloserAt(t, j + 1); }
      }
      ParseWithoutCloser(t[1..]);
      assert forall i :: 1 <= i < |Parse(t)| ==> Parse(t)[i] == Parse(t[1..])[i - 1];
    }
  }

  /** A template with no `{{`, or with no `}}`, holds no span and comes back
      unchanged. */
  lemma TemplateWithoutSpanUnchanged(ev: Evaluator, vars: Variables, t: string)
    requires (forall j :: !OpenerAt(t, j)) || (forall j :: !CloserAt(t, j))
    ensures EvalTemplate(ev, vars, t) == Ok(t)
  {
    if forall j :: !OpenerAt(t, j) {
      ParseWithoutOpener(t);
    } else {
      ParseWithoutCloser(t);
    }
    SpanFreeUnchanged(ev, vars, t);
  }

  /** A template the expression matches nowhere comes back unchanged,
      whatever the variables and the evaluator. */
  lemma SpanFreeUnchanged(ev: Evaluator, vars: Variables, t: string)
    requires forall i :: 0 <= i < |Parse(t)| ==> Parse(t)[i].Char?
    ensures EvalTemplate(ev, vars, t) == Ok(t)
  {
    EvalTemplateRendersParse(ev, vars, t);
    RenderWithoutSpans(ev, vars, Parse(t));
    ParseRoundTrip(t);
  }

  /** A line feed between the braces keeps `.` from matching, so no span
      is found and the text stays as written. */
  lemma LineBreakInBracesUnchanged(ev: Evaluator, vars: Variables)
    ensures EvalTemplate(ev, vars, "{{a\nb}}") == Ok("{{a\nb}}")
  {
    var t := "{{a\nb}}";
    assert CloseAt(t, 3) == None by { assert IsLineTerminator(t[3]); }
    assert SpanAt(t) == None;
    assert forall j :: !OpenerAt(t[1..], j) by {
      forall j | 0 <= j < |t[1..]| - 1 ensures !OpenerAt(t[1..], j) {
        assert t[1..][j + 1] == t[j + 2];
      }
    }
    TemplateWithoutSpanUnchanged(ev, vars, t[1..]);
    assert t == [t[0]] + t[1..];
  }

  /** A template that is one span is replaced by that span's value, or
      fails as the span fails. */
  lemma SingleSpan(ev: Evaluator, vars: Variables, e: string)
    requires MatchedExpr(e)
    ensures EvalTemplate(ev, vars, "{{" + e + "}}") == EvalPart(ev, vars, e)
  {
    var t := "{{" + e + "}}";
    var m := 2 + |e|;
    assert CloserAt(t, m);
    forall j | 2 <= j < m ensures !CloserAt(t, j) && !IsLineTerminator(t[j]) {
      assert t[j] == e[j - 2] && t[j] == (e + "}")[j - 2] && t[j + 1] == (e + "}")[j - 1];
      assert !CloserAt(e + "}", j - 2);
    }
    assert CloseAt(t, 2) == Some(m);
    assert t[2..m] == e && t[m + 2..] == "";
    match EvalPart(ev, vars, e)
    case Ok(v) => assert v + "" == v;
    case Err(_) =>
  }

  // ---------------------------------------------------------------------
  // The variable record

  /** The variables object handed to `MetadataTemplateProcessor`: the note
      file and an optional frontmatter. */
  class NoteVariables {
    var file: NoteFile
    var frontmatter: Option<Frontmatter>

    constructor (file: NoteFile, frontmatter: Option<Frontmatter>)
      ensures this.file == file && this.frontmatter == frontmatter
    {
      this.file := file;
      this.frontmatter := frontmatter;
    }
  }

  /** The record `{...variables}` a metadata processor starts from. */
  function NoteVariableMap(file: NoteFile, frontmatter: Option<Frontmatter>): Variables
  {
    map["file" := FileValue(file), "frontmatter" := FrontmatterValue(frontmatter)]
  }

  /** The names of a metadata processor's record can be parameters, so its
      blank expressions come out `undefined`. */
  lemma NoteVariablesAreParameters(file: NoteFile, frontmatter: Option<Frontmatter>)
    ensures ParameterNames(NoteVariableMap(file, frontmatter))
  {
    var vars := NoteVariableMap(file, frontmatter);
    forall name | name in vars ensures IsParameterName(name) {
      assert name == "file" || name == "frontmatter";
    }
  }

  class TemplateProcessor {
    var variables: Variables

    /** `TemplateProcessor`'s constructor. */
    constructor (variables: Variables)
      ensures this.variables == variables
    {
      this.variables := variables;
    }

    /** `MetadataTemplateProcessor`'s constructor: a frontmatter the caller
        supplied is kept; only when there is none is the metadata cache's
        frontmatter of the file written back into the caller's object.  The
        processor starts from a copy of that object. */
    constructor ForNote(vs: NoteVariables, cache: MetadataCache)
      modifies vs
      ensures vs.file == old(vs.file)
      ensures old(vs.frontmatter).Some? ==> vs.frontmatter == old(vs.frontmatter)
      ensures old(vs.frontmatter).None? ==> vs.frontmatter == CachedFrontmatter(cache, vs.file)
      ensures variables == NoteVariableMap(vs.file, vs.frontmatter)
    {
      if vs.frontmatter.None? {
        vs.frontmatter := CachedFrontmatter(cache, vs.file);
      }
      variables := NoteVariableMap(vs.file, vs.frontmatter);
    }

    /** `setVariable`: `name` now holds `value`; every other variable keeps
        its value and no other variable appears. */
    method SetVariable(name: string, value: Value)
      modifies this
      ensures name in variables && variables[name] == value
      ensures variables.Keys == old(variables).Keys + {name}
      ensures forall n :: n in old(variables) && n != name ==> variables[n] == old(variables)[n]
    {
      variables := variables[name := value];
    }
  }
}
