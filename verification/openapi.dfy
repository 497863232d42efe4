/** The part of the OpenAPI document that registration writes (`src/lib.rs`): paths, methods and
    operations. */
module OpenApi {
  import opened Text
  import opened Injection
  import opened Templates

  datatype Parameter = InPath(name: string) | Extra(json: Py)

  /** An operation object; its responses follow from the token and the schema. */
  datatype Operation = Operation(
    id: string,
    schema: Option<Py>,
    secured: bool,
    tags: seq<string>,
    parameters: seq<Parameter>)

  /** Operations by path and method, and whether the bearer scheme is declared. */
  datatype Document = Document(paths: map<string, map<string, Operation>>, bearer: bool)

  const EMPTY := Document(map[], false)

  /** What a registration says about its operation. */
  datatype Description = Description(id: string, schema: Option<Py>, tags: seq<string>, extra: seq<Py>)

  // ---- Paths -----------------------------------------------------------------------------------

  /** The template with its parameters in braces. */
  function DocumentPath(t: string): string
    decreases |t|
  {
    if t == "" then ""
    else if IsParam(t[0]) then
      var n := NameLength(t[1..]);
      Braced(t[1..][..n]) + DocumentPath(t[1..][n..])
    else [t[0]] + DocumentPath(t[1..])
  }

  function Braced(name: string): string {
    if name == "" then "" else "{" + name + "}"
  }

  function DocumentParams(t: string): seq<Parameter>
    decreases |t|
  {
    if t == "" then []
    else if IsParam(t[0]) then
      var n := NameLength(t[1..]);
      InPathIfNamed(t[1..][..n]) + DocumentParams(t[1..][n..])
    else DocumentParams(t[1..])
  }

  function InPathIfNamed(name: string): seq<Parameter> {
    if name == "" then [] else [InPath(name)]
  }

  /** A part of the path has been read if what it stands for precedes what the rest stands for. */
  ghost predicate Read(path: string, i: nat, out: string, params: seq<Parameter>) {
    && i <= |path|
    && DocumentPath(path) == out + DocumentPath(path[i..])
    && DocumentParams(path) == params + DocumentParams(path[i..])
  }

  lemma ReadChar(path: string, i: nat, out: string, params: seq<Parameter>)
    requires i < |path| && Read(path, i, out, params) && !IsParam(path[i])
    ensures Read(path, i + 1, out + [path[i]], params)
  {
    var rest := path[i..];
    assert rest[1..] == path[i + 1..];
    Associative(out, [path[i]], DocumentPath(path[i + 1..]));
  }

  lemma ReadName(path: string, i: nat, end: nat, out: string, params: seq<Parameter>)
    requires i < |path| && Read(path, i, out, params) && IsParam(path[i])
    requires end == i + 1 + NameLength(path[i + 1..])
    ensures Read(path, end, out + Braced(path[i + 1..end]), params + InPathIfNamed(path[i + 1..end]))
  {
    var rest, n := path[i..], end - i - 1;
    assert rest[1..] == path[i + 1..];
    assert rest[1..][..n] == path[i + 1..end] && rest[1..][n..] == path[end..];
    Associative(out, Braced(path[i + 1..end]), DocumentPath(path[end..]));
    Associative(params, InPathIfNamed(path[i + 1..end]), DocumentParams(path[end..]));
  }

  /** `openapi_path_and_params`. */
  method OpenapiPathAndParams(path: string) returns (out: string, params: seq<Parameter>)
    ensures out == DocumentPath(path) && params == DocumentParams(path)
  {
    out, params := "", [];
    var i := 0;
    StartReading(path);
    while i < |path|
      invariant 0 <= i <= |path|
      invariant Read(path, i, out, params)
    {
      if IsParam(path[i]) {
        var start := i + 1;
        var end := NameEnd(path, start);
        ReadName(path, i, end, out, params);
        out, params := PushName(out, params, path[start..end]);
        i := end;
      } else {
        ReadChar(path, i, out, params);
        out := out + [path[i]];
        i := i + 1;
      }
    }
    AllRead(path, out, params);
  }

  method PushName(out: string, params: seq<Parameter>, name: string) returns (o: string, ps: seq<Parameter>)
    ensures o == out + Braced(name) && ps == params + InPathIfNamed(name)
  {
    o, ps := out, params;
    if name != "" {
      o := o + ("{" + name + "}");
      ps := ps + [InPath(name)];
    }
  }

  lemma AllRead(path: string, out: string, params: seq<Parameter>)
    requires Read(path, |path|, out, params)
    ensures DocumentPath(path) == out && DocumentParams(path) == params
  {
    assert path[|path|..] == "";
  }

  lemma StartReading(path: string)
    ensures Read(path, 0, "", [])
  {
    assert path[0..] == path;
  }

  // ---- Operations ------------------------------------------------------------------------------

  function Described(path: string, secured: bool, d: Description): Operation {
    Operation(d.id, d.schema, secured, d.tags, DocumentParams(path) + Extras(d.extra))
  }

  function Extras(extra: seq<Py>): seq<Parameter> {
    seq(|extra|, k requires 0 <= k < |extra| => Extra(extra[k]))
  }

  function OperationsAt(doc: Document, path: string): map<string, Operation> {
    if path in doc.paths then doc.paths[path] else map[]
  }

  /** The document once the operation has been written under its path and method. */
  function WithOperation(doc: Document, verb: string, path: string, secured: bool, d: Description): Document {
    var key := DocumentPath(path);
    var operations := OperationsAt(doc, key)[Lower(verb) := Described(path, secured, d)];
    Document(doc.paths[key := operations], doc.bearer || secured)
  }

  /** The document has an operation under the template's path and the method. */
  predicate Lists(doc: Document, verb: string, path: string) {
    Lower(verb) in OperationsAt(doc, DocumentPath(path))
  }

  /** `openapi_add_path`. */
  method OpenapiAddPath(doc: Document, verb: string, path: string, secured: bool, d: Description)
    returns (after: Document)
    ensures after == WithOperation(doc, verb, path, secured, d)
  {
    after := doc;
    var key, params := OpenapiPathAndParams(path);
    params := params + Extras(d.extra);
    if secured {
      after := after.(bearer := true);
    }
    if key !in after.paths {
      after := after.(paths := after.paths[key := map[]]);
    }
    var operation := Operation(d.id, d.schema, secured, d.tags, params);
    after := after.(paths := after.paths[key := after.paths[key][Lower(verb) := operation]]);
  }

  /** Writing an operation changes the document unless it is already there. */
  lemma WritingShowsExactly(doc: Document, verb: string, path: string, secured: bool, d: Description)
    ensures WithOperation(doc, verb, path, secured, d) == doc
            <==> Lists(doc, verb, path) && (secured ==> doc.bearer)
                 && OperationsAt(doc, DocumentPath(path))[Lower(verb)] == Described(path, secured, d)
  {
    var key := DocumentPath(path);
    var after := WithOperation(doc, verb, path, secured, d);
    assert OperationsAt(after, key)[Lower(verb)] == Described(path, secured, d);
    if Lists(doc, verb, path) && OperationsAt(doc, key)[Lower(verb)] == Described(path, secured, d) {
      assert OperationsAt(after, key) == OperationsAt(doc, key);
      assert after.paths == doc.paths;
    }
  }

  lemma WritingTwice(doc: Document, verb: string, path: string, secured: bool, d: Description)
    ensures var after := WithOperation(doc, verb, path, secured, d);
            WithOperation(after, verb, path, secured, d) == after
  {
    var key, operation := DocumentPath(path), Described(path, secured, d);
    var written := OperationsAt(doc, key)[Lower(verb) := operation];
    assert written[Lower(verb) := operation] == written;
    assert doc.paths[key := written][key := written] == doc.paths[key := written];
  }

  /** Writing an operation takes none away. */
  lemma WritingKeeps(doc: Document, verb: string, path: string, secured: bool, d: Description, u: string, t: string)
    ensures var after := WithOperation(doc, verb, path, secured, d);
            && Lists(after, verb, path)
            && (Lists(doc, u, t) ==> Lists(after, u, t))
  {}

  /** An operation as described: the parameters of the path come first, then the others. */
  predicate IsDescribed(operation: Operation, path: string, secured: bool, d: Description) {
    && operation.id == d.id && operation.schema == d.schema && operation.secured == secured
    && operation.tags == d.tags
    && |operation.parameters| == |DocumentParams(path)| + |d.extra|
    && (forall i | 0 <= i < |DocumentParams(path)| :: operation.parameters[i] == DocumentParams(path)[i])
    && (forall i | 0 <= i < |d.extra| :: operation.parameters[|DocumentParams(path)| + i] == Extra(d.extra[i]))
  }

  lemma DescribedIs(path: string, secured: bool, d: Description)
    ensures IsDescribed(Described(path, secured, d), path, secured, d)
  {}

  /** What is written: the described operation, under the path and the method. */
  lemma WrittenIs(doc: Document, verb: string, path: string, secured: bool, d: Description)
    ensures var after := WithOperation(doc, verb, path, secured, d);
            && Lists(after, verb, path)
            && IsDescribed(OperationsAt(after, DocumentPath(path))[Lower(verb)], path, secured, d)
            && (after.bearer <==> doc.bearer || secured)
  {
    DescribedIs(path, secured, d);
  }

  /** Other operations stay as they are. */
  lemma OthersStay(doc: Document, verb: string, path: string, secured: bool, d: Description, key: string, other: string)
    requires key != DocumentPath(path) || other != Lower(verb)
    ensures var after := WithOperation(doc, verb, path, secured, d);
            && (other in OperationsAt(after, key) <==> other in OperationsAt(doc, key))
            && (other in OperationsAt(doc, key) ==>
                  OperationsAt(after, key)[other] == OperationsAt(doc, key)[other])
  {}

  lemma NameHoldsNoMark(t: string, k: nat)
    requires t != "" && IsParam(t[0]) && 0 < k <= NameLength(t[1..])
    ensures !IsParam(t[k])
  {
    assert t[1..][..NameLength(t[1..])][k - 1] == t[k];
    assert t[k] in t[1..][..NameLength(t[1..])];
  }

  /** A parameter of the rest is one of the whole, further on. */
  lemma IntroducedInRest(t: string, n: nat, i: nat, name: string)
    requires n < |t| && i < |t| - n - 1
    ensures Introduces(t[n + 1..], IsParam, i, name) <==> Introduces(t, IsParam, n + 1 + i, name)
  {
    assert t[n + 1..][i + 1..] == t[n + 1 + i + 1..];
  }

  lemma FirstIsParam(t: string, name: string)
    requires t != ""
    ensures Introduces(t, IsParam, 0, name)
            <==> IsParam(t[0]) && name != "" && name == t[1..][..NameLength(t[1..])]
  {}

  lemma RestHasParam(t: string, n: nat, name: string)
    requires n < |t| && HasParam(t[n + 1..], IsParam, name)
    ensures HasParam(t, IsParam, name)
  {
    var i: nat :| Introduces(t[n + 1..], IsParam, i, name);
    IntroducedInRest(t, n, i, name);
  }

  /** No mark lies between the first character and the rest. */
  lemma NotBetween(t: string, n: nat, i: nat, name: string)
    requires t != "" && n == (if IsParam(t[0]) then NameLength(t[1..]) else 0)
    requires i > 0 && Introduces(t, IsParam, i, name)
    ensures HasParam(t[n + 1..], IsParam, name)
  {
    if i <= n {
      NameHoldsNoMark(t, i);
    } else {
      IntroducedInRest(t, n, i - n - 1, name);
    }
  }

  /** The parameters of a template: that of its first character, if it is a mark, and those of the
      rest. */
  lemma ScannedStep(t: string, name: string)
    requires t != ""
    ensures var n := if IsParam(t[0]) then NameLength(t[1..]) else 0;
            HasParam(t, IsParam, name) <==> Introduces(t, IsParam, 0, name) || HasParam(t[n + 1..], IsParam, name)
  {
    var n := if IsParam(t[0]) then NameLength(t[1..]) else 0;
    if HasParam(t[n + 1..], IsParam, name) {
      RestHasParam(t, n, name);
    }
    if HasParam(t, IsParam, name) {
      var i: nat :| Introduces(t, IsParam, i, name);
      if i > 0 {
        NotBetween(t, n, i, name);
      }
    }
  }

  /** The document names the parameters that the scanners find. */
  lemma {:induction false} ParamsAreScanned(t: string, name: string)
    ensures InPath(name) in DocumentParams(t) <==> HasParam(t, IsParam, name)
    decreases |t|
  {
    if t != "" {
      ScannedStep(t, name);
      FirstIsParam(t, name);
      var n := if IsParam(t[0]) then NameLength(t[1..]) else 0;
      assert t[1..][n..] == t[n + 1..];
      ParamsAreScanned(t[n + 1..], name);
    }
  }

  /** Text without marks is its own path. */
  lemma {:induction false} PlainPath(pre: string, rest: string)
    requires forall c | c in pre :: !IsParam(c)
    ensures DocumentPath(pre + rest) == pre + DocumentPath(rest)
  {
    if pre == "" {
      assert pre + rest == rest;
    } else {
      var t := pre + rest;
      assert t[0] == pre[0] && t[1..] == pre[1..] + rest;
      assert pre[0] in pre && forall c | c in pre[1..] :: c in pre;
      PlainPath(pre[1..], rest);
      assert pre == [pre[0]] + pre[1..];
      Associative([pre[0]], pre[1..], DocumentPath(rest));
    }
  }

  /** A parameter gets braces. */
  lemma BracedPath(mark: char, name: string, rest: string)
    requires IsParam(mark) && IsPlain(name) && name != "" && (rest != "" ==> !IsNameChar(rest[0]))
    ensures DocumentPath([mark] + name + rest) == "{" + name + "}" + DocumentPath(rest)
  {
    var t := [mark] + name + rest;
    assert t[1..] == name + rest;
    forall k | 0 <= k < |name| ensures IsNameChar((name + rest)[k]) {
      assert name[k] in name;
    }
    NameLengthIs(name + rest, |name|);
    assert t[1..][..|name|] == name && t[1..][|name|..] == rest;
  }
}
