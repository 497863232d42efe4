/** Merging of configured headers into a response: `merge_header_pairs_replace`,
    `merge_header_pairs_if_absent` and `merge_config_response_headers` in `src/dispatch.rs`. */
module Headers {
  import opened Text

  type Header = (string, string)
  type HeaderList = seq<Header>

  /** Header names are compared ignoring ASCII case. */
  predicate Named(h: Header, name: string) {
    EqIgnoreCase(h.0, name)
  }

  predicate HasName(headers: HeaderList, name: string) {
    exists i :: 0 <= i < |headers| && Named(headers[i], name)
  }

  /** The headers whose name is not `name`, in order: `retain`. */
  function Without(headers: HeaderList, name: string): HeaderList {
    if headers == [] then []
    else if Named(headers[0], name) then Without(headers[1..], name)
    else [headers[0]] + Without(headers[1..], name)
  }

  /** Each extra header in turn displaces those of its name and goes to the end. */
  function Replaced(headers: HeaderList, extra: HeaderList): HeaderList
    decreases |extra|
  {
    if extra == [] then headers
    else Replaced(Without(headers, extra[0].0) + [extra[0]], extra[1..])
  }

  /** Each extra header in turn is added unless its name is already there. */
  function Completed(headers: HeaderList, extra: HeaderList): HeaderList
    decreases |extra|
  {
    if extra == [] then headers
    else Completed(if HasName(headers, extra[0].0) then headers else headers + [extra[0]], extra[1..])
  }

  method Retain(headers: HeaderList, name: string) returns (r: HeaderList)
    ensures r == Without(headers, name)
  {
    r := [];
    var i := 0;
    while i < |headers|
      invariant 0 <= i <= |headers|
      invariant Without(headers, name) == r + Without(headers[i..], name)
    {
      if !Named(headers[i], name) {
        r := r + [headers[i]];
      }
      i := i + 1;
    }
  }

  /** The loop of `merge_header_pairs_replace`. */
  method Replace(headers: HeaderList, extra: HeaderList) returns (r: HeaderList)
    ensures r == Replaced(headers, extra)
  {
    r := headers;
    var i := 0;
    while i < |extra|
      invariant 0 <= i <= |extra|
      invariant Replaced(headers, extra) == Replaced(r, extra[i..])
    {
      r := Retain(r, extra[i].0);
      r := r + [extra[i]];
      i := i + 1;
    }
  }

  /** The loop of `merge_header_pairs_if_absent`. */
  method Complete(headers: HeaderList, extra: HeaderList) returns (r: HeaderList)
    ensures r == Completed(headers, extra)
  {
    r := headers;
    var i := 0;
    while i < |extra|
      invariant 0 <= i <= |extra|
      invariant Completed(headers, extra) == Completed(r, extra[i..])
    {
      var present := false;
      var k := 0;
      while k < |r| && !present
        invariant 0 <= k <= |r|
        invariant present <==> exists j :: 0 <= j < k && Named(r[j], extra[i].0)
      {
        present := Named(r[k], extra[i].0);
        k := k + 1;
      }
      assert present <==> HasName(r, extra[i].0);
      if !present {
        r := r + [extra[i]];
      }
      i := i + 1;
    }
  }

  // ---- What replacement amounts to -----------------------------------------------------------

  /** The headers with none of the names of `extra`. */
  function Untouched(headers: HeaderList, extra: HeaderList): HeaderList {
    if headers == [] then []
    else if HasName(extra, headers[0].0) then Untouched(headers[1..], extra)
    else [headers[0]] + Untouched(headers[1..], extra)
  }

  /** The last header of each name, in the order of those last occurrences. */
  function LastOfEach(extra: HeaderList): HeaderList {
    if extra == [] then []
    else if HasName(extra[1..], extra[0].0) then LastOfEach(extra[1..])
    else [extra[0]] + LastOfEach(extra[1..])
  }

  lemma NamedIsSymmetric(a: Header, b: Header)
    ensures Named(a, b.0) <==> Named(b, a.0)
  {}

  lemma SameNameSamePresence(headers: HeaderList, a: string, b: string)
    requires EqIgnoreCase(a, b)
    ensures HasName(headers, a) <==> HasName(headers, b)
  {
    forall i | 0 <= i < |headers| ensures Named(headers[i], a) <==> Named(headers[i], b) {}
  }

  lemma HasNameConcat(a: HeaderList, b: HeaderList, name: string)
    ensures HasName(a + b, name) <==> HasName(a, name) || HasName(b, name)
  {
    if HasName(a, name) {
      var i :| 0 <= i < |a| && Named(a[i], name);
      assert (a + b)[i] == a[i];
    }
    if HasName(b, name) {
      var i :| 0 <= i < |b| && Named(b[i], name);
      assert (a + b)[|a| + i] == b[i];
    }
  }

  lemma HasNameCons(h: Header, rest: HeaderList, name: string)
    ensures HasName([h] + rest, name) <==> Named(h, name) || HasName(rest, name)
  {
    HasNameConcat([h], rest, name);
    assert HasName([h], name) <==> Named([h][0], name);
  }

  lemma {:induction false} WithoutConcat(a: HeaderList, b: HeaderList, name: string)
    ensures Without(a + b, name) == Without(a, name) + Without(b, name)
  {
    if a == [] {
      assert a + b == b;
    } else {
      assert (a + b)[1..] == a[1..] + b;
      WithoutConcat(a[1..], b, name);
    }
  }

  lemma {:induction false} UntouchedConcat(a: HeaderList, b: HeaderList, extra: HeaderList)
    ensures Untouched(a + b, extra) == Untouched(a, extra) + Untouched(b, extra)
  {
    if a == [] {
      assert a + b == b;
    } else {
      assert (a + b)[1..] == a[1..] + b;
      UntouchedConcat(a[1..], b, extra);
    }
  }

  /** Dropping one name and then the others is dropping them all. */
  lemma {:induction false} UntouchedAfterWithout(headers: HeaderList, h: Header, rest: HeaderList)
    ensures Untouched(Without(headers, h.0), rest) == Untouched(headers, [h] + rest)
  {
    if headers != [] {
      UntouchedAfterWithout(headers[1..], h, rest);
      NamedIsSymmetric(headers[0], h);
      HasNameCons(h, rest, headers[0].0);
      if !Named(headers[0], h.0) {
        var w := Without(headers, h.0);
        assert w == [headers[0]] + Without(headers[1..], h.0) && w[1..] == Without(headers[1..], h.0);
      }
    }
  }

  lemma UntouchedOne(h: Header, rest: HeaderList)
    ensures Untouched([h], rest) + LastOfEach(rest) == LastOfEach([h] + rest)
  {
    assert [h][1..] == [] && ([h] + rest)[1..] == rest;
    assert Untouched([], rest) == [];
    if HasName(rest, h.0) {
      assert Untouched([h], rest) == [];
      assert LastOfEach([h] + rest) == LastOfEach(rest);
    } else {
      assert Untouched([h], rest) == [h];
    }
  }

  /** What a replacing merge leaves: the other headers unchanged and in order, then each
      configured name once, with its last configured value. */
  lemma {:induction false} ReplacedIs(headers: HeaderList, extra: HeaderList)
    ensures Replaced(headers, extra) == Untouched(headers, extra) + LastOfEach(extra)
    decreases |extra|
  {
    if extra == [] {
      UntouchedByNothing(headers);
    } else {
      var h, rest := extra[0], extra[1..];
      assert extra == [h] + rest;
      ReplacedIs(Without(headers, h.0) + [h], rest);
      UntouchedConcat(Without(headers, h.0), [h], rest);
      UntouchedAfterWithout(headers, h, rest);
      UntouchedOne(h, rest);
      Associative(Untouched(headers, extra), Untouched([h], rest), LastOfEach(rest));
    }
  }

  lemma {:induction false} UntouchedByNothing(headers: HeaderList)
    ensures Untouched(headers, []) == headers
  {
    if headers != [] {
      UntouchedByNothing(headers[1..]);
      assert headers == [headers[0]] + headers[1..];
    }
  }

  lemma {:induction false} LastOfEachNames(extra: HeaderList, name: string)
    ensures HasName(LastOfEach(extra), name) <==> HasName(extra, name)
  {
    if extra != [] {
      LastOfEachNames(extra[1..], name);
      assert extra == [extra[0]] + extra[1..];
      HasNameCons(extra[0], extra[1..], name);
      if HasName(extra[1..], extra[0].0) {
        if Named(extra[0], name) {
          var i :| 0 <= i < |extra[1..]| && Named(extra[1..][i], extra[0].0);
          assert Named(extra[1..][i], name);
        }
      } else {
        HasNameCons(extra[0], LastOfEach(extra[1..]), name);
      }
    }
  }

  /** Number of headers called `name`. */
  function Count(headers: HeaderList, name: string): nat {
    if headers == [] then 0 else (if Named(headers[0], name) then 1 else 0) + Count(headers[1..], name)
  }

  /** The value of the last header called `name`. */
  function LastValue(headers: HeaderList, name: string): Option<string> {
    if headers == [] then None else
      match LastValue(headers[1..], name)
      case Some(v) => Some(v)
      case None => if Named(headers[0], name) then Some(headers[0].1) else None
  }

  lemma {:induction false} CountZero(headers: HeaderList, name: string)
    ensures Count(headers, name) == 0 <==> !HasName(headers, name)
    ensures LastValue(headers, name).None? <==> !HasName(headers, name)
  {
    if headers != [] {
      assert headers == [headers[0]] + headers[1..];
      HasNameCons(headers[0], headers[1..], name);
      CountZero(headers[1..], name);
    }
  }

  lemma {:induction false} CountConcat(a: HeaderList, b: HeaderList, name: string)
    ensures Count(a + b, name) == Count(a, name) + Count(b, name)
    ensures LastValue(a + b, name)
            == if LastValue(b, name).Some? then LastValue(b, name) else LastValue(a, name)
  {
    if a == [] {
      assert a + b == b;
    } else {
      assert (a + b)[1..] == a[1..] + b;
      CountConcat(a[1..], b, name);
    }
  }

  lemma {:induction false} LastOfEachOnce(extra: HeaderList, name: string)
    requires HasName(extra, name)
    ensures Count(LastOfEach(extra), name) == 1
    ensures LastValue(LastOfEach(extra), name) == LastValue(extra, name)
  {
    var h, rest := extra[0], extra[1..];
    assert extra == [h] + rest;
    HasNameCons(h, rest, name);
    CountZero(rest, name);
    LastOfEachNames(rest, name);
    CountZero(LastOfEach(rest), name);
    if HasName(rest, name) {
      LastOfEachOnce(rest, name);
    }
    if Named(h, name) {
      SameNameSamePresence(rest, h.0, name);
    }
    CountConcat([h], LastOfEach(rest), name);
    CountConcat([h], rest, name);
  }

  lemma {:induction false} UntouchedHasNone(headers: HeaderList, extra: HeaderList, name: string)
    requires HasName(extra, name)
    ensures !HasName(Untouched(headers, extra), name)
  {
    if headers != [] {
      UntouchedHasNone(headers[1..], extra, name);
      if !HasName(extra, headers[0].0) {
        HasNameCons(headers[0], Untouched(headers[1..], extra), name);
        if Named(headers[0], name) {
          SameNameSamePresence(extra, headers[0].0, name);
        }
      }
    }
  }

  /** After the CORS merge each CORS name occurs exactly once, with its last CORS value. */
  lemma ReplacedNamesOccurOnce(headers: HeaderList, extra: HeaderList, name: string)
    requires HasName(extra, name)
    ensures Count(Replaced(headers, extra), name) == 1
    ensures LastValue(Replaced(headers, extra), name) == LastValue(extra, name)
  {
    ReplacedIs(headers, extra);
    UntouchedHasNone(headers, extra, name);
    CountZero(Untouched(headers, extra), name);
    LastOfEachOnce(extra, name);
    CountConcat(Untouched(headers, extra), LastOfEach(extra), name);
    CountZero(extra, name);
  }

  // ---- What completion amounts to --------------------------------------------------------------

  /** The first header of each name that `present` does not have. */
  function Missing(present: HeaderList, extra: HeaderList): HeaderList
    decreases |extra|
  {
    if extra == [] then []
    else if HasName(present, extra[0].0) then Missing(present, extra[1..])
    else [extra[0]] + Missing(present + [extra[0]], extra[1..])
  }

  /** What a completing merge leaves: all headers unchanged, then the first configured header of
      each absent name. */
  lemma {:induction false} CompletedIs(headers: HeaderList, extra: HeaderList)
    ensures Completed(headers, extra) == headers + Missing(headers, extra)
    decreases |extra|
  {
    if extra != [] {
      if HasName(headers, extra[0].0) {
        CompletedIs(headers, extra[1..]);
      } else {
        CompletedIs(headers + [extra[0]], extra[1..]);
      }
    }
  }

  lemma {:induction false} CompletedNames(headers: HeaderList, extra: HeaderList, name: string)
    ensures HasName(Completed(headers, extra), name) <==> HasName(headers, name) || HasName(extra, name)
    decreases |extra|
  {
    if extra != [] {
      var h, rest := extra[0], extra[1..];
      assert extra == [h] + rest;
      HasNameCons(h, rest, name);
      var next := if HasName(headers, h.0) then headers else headers + [h];
      CompletedNames(next, rest, name);
      HasNameConcat(headers, [h], name);
      HasNameCons(h, [], name);
      assert [h] == [h] + [];
      if Named(h, name) && HasName(headers, h.0) {
        var i :| 0 <= i < |headers| && Named(headers[i], h.0);
        assert Named(headers[i], name);
      }
    }
  }

  /** A configured security header appears only where the name was absent, and then the first of
      the configured ones wins; no name that was present changes. */
  lemma {:induction false} CompletedCounts(headers: HeaderList, extra: HeaderList, name: string)
    ensures HasName(headers, name) ==> Count(Completed(headers, extra), name) == Count(headers, name)
    ensures HasName(headers, name) ==> LastValue(Completed(headers, extra), name) == LastValue(headers, name)
    ensures !HasName(headers, name) && HasName(extra, name) ==>
              Count(Completed(headers, extra), name) == 1
    ensures !HasName(headers, name) ==>
              LastValue(Completed(headers, extra), name) == FirstValue(extra, name)
    decreases |extra|
  {
    CountZero(headers, name);
    if extra != [] {
      var h, rest := extra[0], extra[1..];
      assert extra == [h] + rest;
      HasNameCons(h, rest, name);
      var next := if HasName(headers, h.0) then headers else headers + [h];
      CompletedCounts(next, rest, name);
      HasNameConcat(headers, [h], name);
      HasNameCons(h, [], name);
      assert [h] == [h] + [];
      CountConcat(headers, [h], name);
      if Named(h, name) {
        SameNameSamePresence(headers, h.0, name);
      }
    }
  }

  /** The value of the first header called `name`. */
  function FirstValue(headers: HeaderList, name: string): Option<string> {
    if headers == [] then None
    else if Named(headers[0], name) then Some(headers[0].1)
    else FirstValue(headers[1..], name)
  }

  lemma {:induction false} NoneMissing(present: HeaderList, extra: HeaderList)
    requires forall i | 0 <= i < |extra| :: HasName(present, extra[i].0)
    ensures Completed(present, extra) == present
    decreases |extra|
  {
    if extra != [] {
      NoneMissing(present, extra[1..]);
    }
  }

  // ---- The whole merge -----------------------------------------------------------------------

  datatype Body = Text(text: string) | Bytes(bytes: seq<int>) | Owned(bytes: seq<int>)

  /** What a response is made of before it is sent, in one of two forms, or the note that the callable
      has responded by itself. */
  datatype HandlerMap =
    | AlreadySent
    | WithHeaders(status: int, body: Body, headers: HeaderList)
    | Simple(status: int, body: Body, contentType: string)

  function HeadersOf(m: HandlerMap): HeaderList
    requires !m.AlreadySent?
  {
    match m
    case WithHeaders(_, _, headers) => headers
    case Simple(_, _, ct) => [("content-type", ct)]
  }

  function MergeReplace(m: HandlerMap, extra: HeaderList): HandlerMap {
    if extra == [] || m.AlreadySent? then m
    else WithHeaders(m.status, m.body, Replaced(HeadersOf(m), extra))
  }

  function MergeIfAbsent(m: HandlerMap, extra: HeaderList): HandlerMap {
    if extra == [] || m.AlreadySent? then m
    else WithHeaders(m.status, m.body, Completed(HeadersOf(m), extra))
  }

  /** Security headers first, then CORS headers, both of which may be empty. */
  function MergeConfig(m: HandlerMap, security: HeaderList, cors: HeaderList): HandlerMap {
    MergeReplace(MergeIfAbsent(m, security), cors)
  }

  /** `merge_header_pairs_if_absent` then `merge_header_pairs_replace`, as
      `merge_config_response_headers` chains them. */
  method MergeConfigResponseHeaders(mapped: HandlerMap, security: HeaderList, cors: HeaderList) returns (r: HandlerMap)
    ensures r == MergeConfig(mapped, security, cors)
  {
    r := mapped;
    if r.AlreadySent? {
      return;
    }
    if security != [] {
      var headers := Complete(HeadersOf(r), security);
      r := WithHeaders(r.status, r.body, headers);
    }
    if cors != [] {
      var headers := Replace(HeadersOf(r), cors);
      r := WithHeaders(r.status, r.body, headers);
    }
  }

  /** What the whole merge does to the header list, whatever form the response has. */
  lemma MergeConfigHeaders(m: HandlerMap, security: HeaderList, cors: HeaderList)
    requires !m.AlreadySent?
    ensures var r := MergeConfig(m, security, cors);
            && !r.AlreadySent? && r.status == m.status && r.body == m.body
            && HeadersOf(r) == Replaced(Completed(HeadersOf(m), security), cors)
  {}

  /** Header by header: a CORS name occurs once with its last CORS value; any other name the
      handler set is exactly as the handler left it; and a security name is added, once and with
      its first configured value, only where neither the handler nor CORS has it. */
  lemma MergePerName(m: HandlerMap, security: HeaderList, cors: HeaderList, name: string)
    requires !m.AlreadySent?
    ensures var before := HeadersOf(m);
            var after := HeadersOf(MergeConfig(m, security, cors));
            if HasName(cors, name) then
              Count(after, name) == 1 && LastValue(after, name) == LastValue(cors, name)
            else if HasName(before, name) then
              Count(after, name) == Count(before, name) && LastValue(after, name) == LastValue(before, name)
            else
              Count(after, name) == (if HasName(security, name) then 1 else 0)
              && LastValue(after, name) == FirstValue(security, name)
  {
    var before := HeadersOf(m);
    var middle := Completed(before, security);
    MergeConfigHeaders(m, security, cors);
    if HasName(cors, name) {
      ReplacedNamesOccurOnce(middle, cors, name);
    } else {
      ReplacedIs(middle, cors);
      UntouchedCounts(middle, cors, name);
      LastOfEachNames(cors, name);
      CountZero(LastOfEach(cors), name);
      CountConcat(Untouched(middle, cors), LastOfEach(cors), name);
      CompletedCounts(before, security, name);
      CompletedNames(before, security, name);
      CountZero(middle, name);
    }
  }

  lemma {:induction false} UntouchedCounts(headers: HeaderList, extra: HeaderList, name: string)
    requires !HasName(extra, name)
    ensures Count(Untouched(headers, extra), name) == Count(headers, name)
    ensures LastValue(Untouched(headers, extra), name) == LastValue(headers, name)
  {
    if headers != [] {
      UntouchedCounts(headers[1..], extra, name);
      if HasName(extra, headers[0].0) {
        if Named(headers[0], name) {
          SameNameSamePresence(extra, headers[0].0, name);
        }
      } else {
        CountConcat([headers[0]], Untouched(headers[1..], extra), name);
        CountConcat([headers[0]], headers[1..], name);
        assert headers == [headers[0]] + headers[1..];
      }
    }
  }

  /** The handler's other headers survive unchanged and in order: removing the CORS names from
      the result gives the handler's headers without them, followed by the missing security
      headers without them. */
  lemma OtherHeadersKeepOrder(m: HandlerMap, security: HeaderList, cors: HeaderList)
    requires !m.AlreadySent?
    ensures Untouched(HeadersOf(MergeConfig(m, security, cors)), cors)
            == Untouched(HeadersOf(m), cors) + Untouched(Missing(HeadersOf(m), security), cors)
  {
    var middle := Completed(HeadersOf(m), security);
    MergeConfigHeaders(m, security, cors);
    CompletedIs(HeadersOf(m), security);
    UntouchedConcat(HeadersOf(m), Missing(HeadersOf(m), security), cors);
    ReplacedIs(middle, cors);
    UntouchedAgain(middle, cors);
  }

  lemma {:induction false} UntouchedAll(headers: HeaderList, extra: HeaderList)
    requires forall i | 0 <= i < |headers| :: HasName(extra, headers[i].0)
    ensures Untouched(headers, extra) == []
  {
    if headers != [] {
      UntouchedAll(headers[1..], extra);
    }
  }

  lemma {:induction false} UntouchedTwice(headers: HeaderList, extra: HeaderList)
    ensures Untouched(Untouched(headers, extra), extra) == Untouched(headers, extra)
  {
    if headers != [] {
      UntouchedTwice(headers[1..], extra);
      if !HasName(extra, headers[0].0) {
        var u := Untouched(headers, extra);
        assert u == [headers[0]] + Untouched(headers[1..], extra) && u[1..] == Untouched(headers[1..], extra);
      }
    }
  }

  lemma UntouchedAgain(headers: HeaderList, extra: HeaderList)
    ensures Untouched(Untouched(headers, extra) + LastOfEach(extra), extra) == Untouched(headers, extra)
  {
    UntouchedConcat(Untouched(headers, extra), LastOfEach(extra), extra);
    UntouchedTwice(headers, extra);
    forall i | 0 <= i < |LastOfEach(extra)| ensures HasName(extra, LastOfEach(extra)[i].0) {
      assert Named(LastOfEach(extra)[i], LastOfEach(extra)[i].0);
      LastOfEachNames(extra, LastOfEach(extra)[i].0);
    }
    UntouchedAll(LastOfEach(extra), extra);
  }

  /** Applying the whole merge a second time changes nothing. */
  lemma MergeIsIdempotent(m: HandlerMap, security: HeaderList, cors: HeaderList)
    ensures var once := MergeConfig(m, security, cors);
            MergeConfig(once, security, cors) == once
  {
    if !m.AlreadySent? {
      var middle := Completed(HeadersOf(m), security);
      MergeConfigHeaders(m, security, cors);
      var once := MergeConfig(m, security, cors);
      var hs := HeadersOf(once);
      forall i | 0 <= i < |security| ensures HasName(hs, security[i].0) {
        assert Named(security[i], security[i].0);
        assert HasName(security, security[i].0);
        MergePerName(m, security, cors, security[i].0);
        CountZero(hs, security[i].0);
        CountZero(HeadersOf(m), security[i].0);
      }
      NoneMissing(hs, security);
      ReplacedIs(middle, cors);
      ReplacedIs(hs, cors);
      UntouchedAgain(middle, cors);
    }
  }
}
