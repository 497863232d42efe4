/** The scanners of `src/lib.rs` that find the parameters of a route template. */
module Templates {
  import opened Text

  predicate IsNameChar(c: char) {
    'a' <= c <= 'z' || 'A' <= c <= 'Z' || '0' <= c <= '9' || c == '_'
  }

  predicate IsWildcard(c: char) {
    c == '*'
  }

  predicate IsParam(c: char) {
    c == ':' || c == '*'
  }

  /** Length of the name a text starts with. */
  function NameLength(s: string): (n: nat)
    ensures n <= |s| && (forall c | c in s[..n] :: IsNameChar(c))
    ensures n < |s| ==> !IsNameChar(s[n])
  {
    if s == "" || !IsNameChar(s[0]) then 0 else
      var n := NameLength(s[1..]);
      assert s[..n + 1] == [s[0]] + s[1..][..n];
      n + 1
  }

  /** The template has the parameter `name`, introduced by a mark: the name is all the name
      characters after the mark. */
  ghost predicate Introduces(path: string, mark: char -> bool, i: nat, name: string) {
    && i < |path| && mark(path[i]) && name != ""
    && name == path[i + 1..][..NameLength(path[i + 1..])]
  }

  ghost predicate HasParam(path: string, mark: char -> bool, name: string) {
    exists i: nat :: Introduces(path, mark, i, name)
  }

  ghost predicate HasParamBefore(path: string, mark: char -> bool, name: string, end: nat) {
    exists i: nat :: i < end && Introduces(path, mark, i, name)
  }

  lemma {:induction false} NameLengthIs(s: string, n: nat)
    requires n <= |s| && (forall k | 0 <= k < n :: IsNameChar(s[k])) && (n < |s| ==> !IsNameChar(s[n]))
    ensures NameLength(s) == n
  {
    if n > 0 {
      NameLengthIs(s[1..], n - 1);
    }
  }

  /** Characters without a mark introduce nothing. */
  lemma NextMark(path: string, mark: char -> bool, from: nat, i: nat, name: string)
    requires from < i <= |path| && forall k | from < k < i :: !mark(path[k])
    ensures HasParamBefore(path, mark, name, i)
            <==> HasParamBefore(path, mark, name, from) || Introduces(path, mark, from, name)
  {
    if HasParamBefore(path, mark, name, i) {
      var k: nat :| k < i && Introduces(path, mark, k, name);
    }
    if HasParamBefore(path, mark, name, from) {
      var k: nat :| k < from && Introduces(path, mark, k, name);
    }
  }

  /** The inner loop: the end of the name that starts at `start`. */
  method NameEnd(path: string, start: nat) returns (i: nat)
    requires start <= |path|
    ensures i == start + NameLength(path[start..])
    ensures i <= |path| && forall k | start <= k < i :: IsNameChar(path[k])
  {
    i := start;
    while i < |path| && IsNameChar(path[i])
      invariant start <= i <= |path|
      invariant forall k | start <= k < i :: IsNameChar(path[k])
    {
      i := i + 1;
    }
    NameLengthIs(path[start..], i - start);
  }

  /** The scan both functions make, `*` alone being the mark of one and `:` or `*` of the other.
      A mark is never part of a name, so the characters the inner loop skips introduce nothing. */
  method ScanNames(path: string, mark: char -> bool) returns (out: set<string>)
    requires forall c :: mark(c) ==> !IsNameChar(c)
    ensures forall name :: name in out <==> HasParam(path, mark, name)
  {
    out := {};
    var i := 0;
    while i < |path|
      invariant 0 <= i <= |path|
      invariant forall name :: name in out <==> HasParamBefore(path, mark, name, i)
    {
      ghost var from := i;
      if mark(path[i]) {
        var start := i + 1;
        i := NameEnd(path, start);
        var name := path[start..i];
        assert path[start..][..i - start] == name;
        if name != "" {
          out := out + {name};
        }
      } else {
        i := i + 1;
      }
      forall name { NextMark(path, mark, from, i, name); }
    }
  }

  /** `wildcard_param_names`. */
  method WildcardParamNames(path: string) returns (out: set<string>)
    ensures forall name :: name in out <==> HasParam(path, IsWildcard, name)
  {
    out := ScanNames(path, IsWildcard);
  }

  /** `all_path_param_names`. */
  method AllPathParamNames(path: string) returns (out: set<string>)
    ensures forall name :: name in out <==> HasParam(path, IsParam, name)
  {
    out := ScanNames(path, IsParam);
  }

  /** The names as a value: at most one for each character of the template. */
  ghost function ParamNames(path: string, mark: char -> bool): (names: set<string>)
    ensures forall name :: name in names <==> HasParam(path, mark, name)
  {
    var names := set i | 0 <= i < |path| && mark(path[i]) :: path[i + 1..][..NameLength(path[i + 1..])];
    forall name ensures name in names - {""} <==> HasParam(path, mark, name) {
      if name in names - {""} {
        var i :| 0 <= i < |path| && mark(path[i]) && name == path[i + 1..][..NameLength(path[i + 1..])];
        assert Introduces(path, mark, i, name);
      }
    }
    names - {""}
  }

  /** Every catch-all is a parameter. */
  lemma WildcardsAreParams(path: string)
    ensures ParamNames(path, IsWildcard) <= ParamNames(path, IsParam)
  {
    forall name | name in ParamNames(path, IsWildcard) ensures name in ParamNames(path, IsParam) {
      var i: nat :| Introduces(path, IsWildcard, i, name);
      assert Introduces(path, IsParam, i, name);
    }
  }

  // ---- The parameters that matchit captures ----------------------------------------------------

  /** A parameter of a template: its mark, and its name as matchit reads it. */
  datatype Param = Param(mark: char, name: string)

  /** Length of the path segment a text starts with. */
  function SegmentLength(s: string): (n: nat)
    ensures n <= |s| && '/' !in s[..n] && (n < |s| ==> s[n] == '/')
  {
    if s == "" || s[0] == '/' then 0 else
      var n := SegmentLength(s[1..]);
      assert s[..n + 1] == [s[0]] + s[1..][..n];
      n + 1
  }

  /** matchit runs a name from its mark up to the next slash, whatever the characters. */
  function Params(t: string): seq<Param>
    decreases |t|
  {
    if t == "" then []
    else if IsParam(t[0]) then
      var n := SegmentLength(t[1..]);
      [Param(t[0], t[1..][..n])] + Params(t[1..][n..])
    else Params(t[1..])
  }

  /** What matchit demands of the parameters of a template before it inserts it: names are not
      empty, and there is at most one to a segment. */
  predicate WellFormed(t: string) {
    forall p | p in Params(t) :: p.name != "" && forall c | c in p.name :: !IsParam(c)
  }

  /** The names that are captured when the template matches. */
  function CapturedNames(t: string, mark: char -> bool): set<string> {
    set p | p in Params(t) && mark(p.mark) :: p.name
  }

  /** Every character of the name is one the scanners take for part of a name. */
  predicate IsPlain(name: string) {
    forall c | c in name :: IsNameChar(c)
  }

  /** What the scanners make of a name. */
  function Scanned(name: string): (r: string)
    ensures IsPlain(r)
    ensures r == name <==> IsPlain(name)
  {
    var n := NameLength(name);
    assert n < |name| ==> name[n] in name;
    assert name[..|name|] == name;
    name[..n]
  }

  /** matchit reads the parameter at a mark. */
  ghost predicate Captures(t: string, i: nat, p: Param) {
    && i < |t| && IsParam(t[i])
    && p == Param(t[i], t[i + 1..][..SegmentLength(t[i + 1..])])
  }

  lemma {:induction false} NameEndsInSegment(s: string)
    ensures NameLength(s) <= SegmentLength(s)
  {
    if s != "" && IsNameChar(s[0]) {
      NameEndsInSegment(s[1..]);
    }
  }

  lemma {:induction false} WholeSegment(s: string)
    requires '/' !in s
    ensures SegmentLength(s) == |s|
  {
    if s != "" {
      WholeSegment(s[1..]);
    }
  }

  /** A name that is scanned is the beginning of the name that is captured. */
  lemma ScannedInSegment(s: string)
    ensures s[..NameLength(s)] == Scanned(s[..SegmentLength(s)])
  {
    var n, name := NameLength(s), s[..SegmentLength(s)];
    NameEndsInSegment(s);
    forall k | 0 <= k < n ensures IsNameChar(name[k]) {
      assert s[k] in s[..n];
    }
    NameLengthIs(name, n);
  }

  /** Every parameter stands at a mark. */
  lemma {:induction false} CapturedAtMark(t: string, p: Param)
    requires p in Params(t)
    ensures exists i: nat :: Captures(t, i, p)
    decreases |t|
  {
    var n := if IsParam(t[0]) then SegmentLength(t[1..]) else 0;
    if IsParam(t[0]) && p == Params(t)[0] {
      assert Captures(t, 0, p);
    } else {
      CapturedAtMark(t[1..][n..], p);
      var i: nat :| Captures(t[1..][n..], i, p);
      assert t[1..][n..][i + 1..] == t[n + i + 2..];
      assert Captures(t, n + i + 1, p);
    }
  }

  lemma RestIsWellFormed(t: string)
    requires WellFormed(t) && t != ""
    ensures WellFormed(t[1..][if IsParam(t[0]) then SegmentLength(t[1..]) else 0..])
  {}

  /** Where names hold no marks, every mark introduces a parameter. */
  lemma {:induction false} MarkCaptures(t: string, i: nat, p: Param)
    requires WellFormed(t) && Captures(t, i, p)
    ensures p in Params(t)
    decreases |t|
  {
    var n := if IsParam(t[0]) then SegmentLength(t[1..]) else 0;
    if i == 0 {
      assert p == Params(t)[0];
    } else {
      forall j | 1 <= j <= n ensures !IsParam(t[j]) {
        assert Params(t)[0] in Params(t) && t[1..][..n][j - 1] in Params(t)[0].name;
      }
      assert t[1..][n..][i - n..] == t[i + 1..];
      RestIsWellFormed(t);
      MarkCaptures(t[1..][n..], i - n - 1, p);
    }
  }

  /** The scanners find the beginnings of the captured names. */
  lemma ScannedFromCaptured(t: string, mark: char -> bool, name: string)
    requires WellFormed(t) && forall c | mark(c) :: IsParam(c)
    ensures name in ParamNames(t, mark)
            <==> name != "" && exists p :: p in Params(t) && mark(p.mark) && Scanned(p.name) == name
  {
    if name in ParamNames(t, mark) {
      var i: nat :| Introduces(t, mark, i, name);
      var p := Param(t[i], t[i + 1..][..SegmentLength(t[i + 1..])]);
      MarkCaptures(t, i, p);
      ScannedInSegment(t[i + 1..]);
    }
    if p :| name != "" && p in Params(t) && mark(p.mark) && Scanned(p.name) == name {
      CapturedAtMark(t, p);
      var i: nat :| Captures(t, i, p);
      ScannedInSegment(t[i + 1..]);
      assert Introduces(t, mark, i, name);
    }
  }

  /** The scanners find the names that matchit captures if and only if all of these consist of
      letters, digits and underscores. */
  lemma ScansCapturedExactly(t: string, mark: char -> bool)
    requires WellFormed(t) && forall c | mark(c) :: IsParam(c)
    ensures ParamNames(t, mark) == CapturedNames(t, mark)
            <==> forall p | p in Params(t) && mark(p.mark) :: IsPlain(p.name)
  {
    forall name { ScannedFromCaptured(t, mark, name); }
    if ParamNames(t, mark) == CapturedNames(t, mark) {
      forall p | p in Params(t) && mark(p.mark) ensures IsPlain(p.name) {
        assert p.name in CapturedNames(t, mark);
        var q :| q in Params(t) && mark(q.mark) && Scanned(q.name) == p.name;
      }
    }
  }

  /** The name of the parameter is found by the scanner for catch-alls exactly if it is one. */
  ghost predicate ToldApart(t: string, p: Param) {
    if IsWildcard(p.mark) then IsPlain(p.name)
    else forall q | q in Params(t) && IsWildcard(q.mark) :: Scanned(q.name) != p.name
  }

  lemma WildcardIsTold(t: string, p: Param)
    requires WellFormed(t) && p in Params(t)
    ensures (p.name in ParamNames(t, IsWildcard) <==> IsWildcard(p.mark)) <==> ToldApart(t, p)
  {
    ScannedFromCaptured(t, IsWildcard, p.name);
  }

  /** A template with one parameter, at its end. */
  lemma {:induction false} LastSegment(pre: string, mark: char, name: string)
    requires (forall c | c in pre :: !IsParam(c)) && IsParam(mark) && '/' !in name
    ensures Params(pre + [mark] + name) == [Param(mark, name)]
  {
    var t := pre + [mark] + name;
    if pre == "" {
      var n := SegmentLength(t[1..]);
      assert t[1..] == name;
      WholeSegment(name);
      assert name[..n] == name && Params(name[n..]) == [];
    } else {
      assert t[0] in pre && t[1..] == pre[1..] + [mark] + name;
      LastSegment(pre[1..], mark, name);
    }
  }

  lemma {:induction false} NoParams(t: string)
    requires forall c | c in t :: !IsParam(c)
    ensures Params(t) == []
  {
    if t != "" {
      NoParams(t[1..]);
    }
  }
}
