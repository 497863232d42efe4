/** The native JSON writer of `src/schema.rs`, read back by the grammar of RFC 8259 and the
    visitor of the same file. Floating-point numbers are not part of the written values. */
module Json {
  import opened Decimal
  import opened Numbers
  import opened Text

  // ---- Values --------------------------------------------------------------------------------

  datatype Key = StrKey(name: string) | OtherKey

  /** A Python object handed to the writer. */
  datatype Value =
    | PyNone
    | PyBool(b: bool)
    | PyInt(i: int)
    | PyStr(s: string)
    | PyList(items: seq<Value>)
    | PyTuple(items: seq<Value>)
    | PyDict(members: seq<Member>)
    | PyOther

  datatype Member = Member(key: Key, value: Value)

  const MAX_DEPTH := 128

  // ---- Writing -------------------------------------------------------------------------------

  function HexDigit(d: nat): (c: char)
    requires d < 16
  {
    if d < 10 then DigitChar(d) else ('a' as int + d - 10) as char
  }

  /** The escapes of the standard JSON serializer: short forms where they exist, `\u00xx` for the
      other control characters. */
  function EscapedChar(c: char): string {
    if c == '"' then "\\\""
    else if c == '\\' then "\\\\"
    else if c == '\U{08}' then "\\b"
    else if c == '\U{0C}' then "\\f"
    else if c == '\n' then "\\n"
    else if c == '\r' then "\\r"
    else if c == '\t' then "\\t"
    else if c < ' ' then "\\u00" + [HexDigit(c as int / 16), HexDigit(c as int % 16)]
    else [c]
  }

  function Escaped(s: string): string {
    if s == "" then "" else EscapedChar(s[0]) + Escaped(s[1..])
  }

  function Quoted(s: string): string {
    "\"" + Escaped(s) + "\""
  }

  function KeyText(k: Key): string {
    if k.StrKey? then Quoted(k.name) else ""
  }

  /** What a successful call writes. */
  function TextOf(v: Value): string
    decreases v, 1
  {
    match v
    case PyNone => "null"
    case PyBool(b) => if b then "true" else "false"
    case PyInt(i) => PrintInt(i)
    case PyStr(s) => Quoted(s)
    case PyList(items) => "[" + ItemsText(items) + "]"
    case PyTuple(items) => "[" + ItemsText(items) + "]"
    case PyDict(members) => "{" + MembersText(members) + "}"
    case PyOther => ""
  }

  function ItemsText(items: seq<Value>): string
    decreases items, 0
  {
    if items == [] then ""
    else if |items| == 1 then TextOf(items[0])
    else TextOf(items[0]) + ", " + ItemsText(items[1..])
  }

  function MembersText(members: seq<Member>): string
    decreases members, 0
  {
    if members == [] then ""
    else if |members| == 1 then MemberText(members[0])
    else MemberText(members[0]) + ", " + MembersText(members[1..])
  }

  function MemberText(m: Member): string
    decreases m, 1
  {
    KeyText(m.key) + ": " + TextOf(m.value)
  }

  /** The writer accepts `v` at nesting depth `depth`. */
  predicate Writable(v: Value, depth: nat) {
    depth <= MAX_DEPTH &&
    match v
    case PyInt(i) => I128_MIN <= i <= I128_MAX
    case PyList(items) => forall x | x in items :: Writable(x, depth + 1)
    case PyTuple(items) => forall x | x in items :: Writable(x, depth + 1)
    case PyDict(members) => forall m | m in members :: WritableMember(m, depth + 1)
    case PyOther => false
    case _ => true
  }

  predicate WritableMember(m: Member, depth: nat) {
    m.key.StrKey? && Writable(m.value, depth)
  }

  predicate MembersWritable(members: seq<Member>, n: nat, depth: nat)
    requires n <= |members|
  {
    n == 0 || (MembersWritable(members, n - 1, depth) && WritableMember(members[n - 1], depth))
  }

  lemma {:induction false} MembersWritableUpTo(members: seq<Member>, n: nat, depth: nat)
    requires n <= |members|
    ensures MembersWritable(members, n, depth) <==> forall m | m in members[..n] :: WritableMember(m, depth)
  {
    if n > 0 {
      MembersWritableUpTo(members, n - 1, depth);
      var front, last := members[..n - 1], members[n - 1];
      assert members[..n] == front + [last];
      assert last in members[..n] && forall m | m in front :: m in members[..n];
      if MembersWritable(members, n, depth) {
        forall m | m in members[..n] ensures WritableMember(m, depth) {
          assert m in front || m == last;
        }
      }
    }
  }

  lemma {:induction false} MembersUnwritable(members: seq<Member>, n: nat, i: nat, depth: nat)
    requires i < n <= |members| && !WritableMember(members[i], depth)
    ensures !MembersWritable(members, n, depth)
  {
    if i < n - 1 {
      MembersUnwritable(members, n - 1, i, depth);
    }
  }

  class Writer {
    var out: string

    constructor ()
      ensures out == ""
    {
      out := "";
    }

    method WriteAll(s: string)
      modifies this
      ensures out == old(out) + s
    {
      out := out + s;
    }
  }

  /** `write_py_json`. */
  method WritePyJson(v: Value, writer: Writer, depth: nat) returns (ok: bool)
    modifies writer
    ensures ok <==> Writable(v, depth)
    ensures ok ==> writer.out == old(writer.out) + TextOf(v)
    decreases v, 2
  {
    if depth > MAX_DEPTH {
      return false;
    }
    match v {
      case PyNone =>
        writer.WriteAll("null");
      case PyBool(b) =>
        writer.WriteAll(if b then "true" else "false");
      case PyInt(i) =>
        if i < I128_MIN || i > I128_MAX {
          return false;
        }
        writer.WriteAll(PrintInt(i));
      case PyStr(s) =>
        writer.WriteAll(Quoted(s));
      case PyList(items) =>
        ok := WriteItems(items, writer, depth);
        return;
      case PyTuple(items) =>
        ok := WriteItems(items, writer, depth);
        return;
      case PyDict(members) =>
        ok := WriteMembers(members, writer, depth);
        return;
      case PyOther =>
        return false;
    }
    return true;
  }

  /** What is still to come, with the comma that sets it off from what was written. */
  ghost function PendingItems(items: seq<Value>, i: nat, first: bool): string
    requires i <= |items|
    decreases |items| - i
  {
    if i == |items| then ""
    else Separated(TextOf(items[i]) + PendingItems(items, i + 1, false), first)
  }

  ghost function PendingMembers(members: seq<Member>, i: nat, first: bool): string
    requires i <= |members|
    decreases |members| - i
  {
    if i == |members| then ""
    else Separated(MemberText(members[i]) + PendingMembers(members, i + 1, false), first)
  }

  ghost function Separated(text: string, first: bool): string {
    if first then text else ", " + text
  }

  lemma SeparatedStep(done: string, first: bool, item: string, rest: string)
    ensures done + Separated(item + rest, first) == (if first then done else done + ", ") + item + rest
  {}

  lemma ItemsStep(before: string, first: bool, items: seq<Value>, i: nat, after: string)
    requires i < |items| && after == (if first then before else before + ", ") + TextOf(items[i])
    ensures before + PendingItems(items, i, first) == after + PendingItems(items, i + 1, false)
  {
    SeparatedStep(before, first, TextOf(items[i]), PendingItems(items, i + 1, false));
  }

  lemma MembersStep(before: string, first: bool, members: seq<Member>, i: nat, after: string)
    requires i < |members| && after == (if first then before else before + ", ") + MemberText(members[i])
    ensures before + PendingMembers(members, i, first) == after + PendingMembers(members, i + 1, false)
  {
    SeparatedStep(before, first, MemberText(members[i]), PendingMembers(members, i + 1, false));
  }

  lemma {:induction false} ItemsPending(items: seq<Value>, i: nat)
    requires i < |items|
    ensures PendingItems(items, i, true) == ItemsText(items[i..])
    decreases |items| - i
  {
    assert items[i..][1..] == items[i + 1..];
    if i + 1 < |items| {
      ItemsPending(items, i + 1);
      CommaFirst(TextOf(items[i]), ItemsText(items[i + 1..]));
      assert PendingItems(items, i + 1, false) == ", " + PendingItems(items, i + 1, true);
    }
  }

  lemma {:induction false} MembersPending(members: seq<Member>, i: nat)
    requires i < |members|
    ensures PendingMembers(members, i, true) == MembersText(members[i..])
    decreases |members| - i
  {
    assert members[i..][1..] == members[i + 1..];
    if i + 1 < |members| {
      MembersPending(members, i + 1);
      CommaFirst(MemberText(members[i]), MembersText(members[i + 1..]));
      assert PendingMembers(members, i + 1, false) == ", " + PendingMembers(members, i + 1, true);
    }
  }

  lemma CommaFirst(first: string, rest: string)
    ensures first + ", " + rest == first + (", " + rest)
  {}

  lemma Bracketed(done: string, open: string, text: string, close: string)
    ensures done + open + text + close == done + (open + text + close)
  {}

  /** A comma before every entry but the first; none is the first any more. */
  method WriteSeparator(writer: Writer, first: bool) returns (next: bool)
    modifies writer
    ensures !next && writer.out == if first then old(writer.out) else old(writer.out) + ", "
  {
    if !first {
      writer.WriteAll(", ");
    }
    next := false;
  }

  /** The loop of the list and tuple branches. */
  method WriteItemList(items: seq<Value>, writer: Writer, depth: nat) returns (ok: bool)
    modifies writer
    ensures ok <==> forall k | 0 <= k < |items| :: Writable(items[k], depth)
    ensures ok ==> writer.out == old(writer.out) + ItemsText(items)
    decreases items, 0
  {
    assert items[0..] == items;
    if items != [] {
      ItemsPending(items, 0);
    }
    ghost var goal := writer.out + PendingItems(items, 0, true);
    var first := true;
    for i := 0 to |items|
      invariant first <==> i == 0
      invariant forall k | 0 <= k < i :: Writable(items[k], depth)
      invariant goal == writer.out + PendingItems(items, i, first)
    {
      ghost var before, wasFirst := writer.out, first;
      first := WriteSeparator(writer, first);
      ok := WritePyJson(items[i], writer, depth);
      if !ok {
        return;
      }
      ItemsStep(before, wasFirst, items, i, writer.out);
    }
    return true;
  }

  /** The list and tuple branches. */
  method WriteItems(items: seq<Value>, writer: Writer, depth: nat) returns (ok: bool)
    modifies writer
    ensures ok <==> forall x | x in items :: Writable(x, depth + 1)
    ensures ok ==> writer.out == old(writer.out) + ("[" + ItemsText(items) + "]")
    decreases items, 1
  {
    writer.WriteAll("[");
    ok := WriteItemList(items, writer, depth + 1);
    assert forall k | 0 <= k < |items| :: items[k] in items;
    if ok {
      Bracketed(old(writer.out), "[", ItemsText(items), "]");
      writer.WriteAll("]");
    }
  }

  method WriteMember(m: Member, writer: Writer, depth: nat) returns (ok: bool)
    modifies writer
    ensures ok <==> WritableMember(m, depth)
    ensures ok ==> writer.out == old(writer.out) + MemberText(m)
    decreases m, 1
  {
    if !m.key.StrKey? {
      return false;
    }
    writer.WriteAll(Quoted(m.key.name));
    writer.WriteAll(": ");
    ok := WritePyJson(m.value, writer, depth);
  }

  /** The loop of the dictionary branch. */
  method WriteMemberList(members: seq<Member>, writer: Writer, depth: nat) returns (ok: bool)
    modifies writer
    ensures ok <==> MembersWritable(members, |members|, depth)
    ensures ok ==> writer.out == old(writer.out) + MembersText(members)
    decreases members, 0
  {
    assert members[0..] == members;
    if members != [] {
      MembersPending(members, 0);
    }
    ghost var goal := writer.out + PendingMembers(members, 0, true);
    var first := true;
    for i := 0 to |members|
      invariant first <==> i == 0
      invariant MembersWritable(members, i, depth)
      invariant goal == writer.out + PendingMembers(members, i, first)
    {
      ghost var before, wasFirst := writer.out, first;
      first := WriteSeparator(writer, first);
      ok := WriteMember(members[i], writer, depth);
      if !ok {
        MembersUnwritable(members, |members|, i, depth);
        return;
      }
      MembersStep(before, wasFirst, members, i, writer.out);
    }
    return true;
  }

  /** The dictionary branch. */
  method WriteMembers(members: seq<Member>, writer: Writer, depth: nat) returns (ok: bool)
    modifies writer
    ensures ok <==> forall m | m in members :: WritableMember(m, depth + 1)
    ensures ok ==> writer.out == old(writer.out) + ("{" + MembersText(members) + "}")
    decreases members, 1
  {
    writer.WriteAll("{");
    ok := WriteMemberList(members, writer, depth + 1);
    MembersWritableUpTo(members, |members|, depth + 1);
    assert members[..|members|] == members;
    if ok {
      Bracketed(old(writer.out), "{", MembersText(members), "}");
      writer.WriteAll("}");
    }
  }

  // ---- The depth bound -----------------------------------------------------------------------

  /** Only text keys, no integer beyond 128 bits and no foreign object, at any depth. */
  predicate Plain(v: Value) {
    match v
    case PyInt(i) => I128_MIN <= i <= I128_MAX
    case PyList(items) => forall x | x in items :: Plain(x)
    case PyTuple(items) => forall x | x in items :: Plain(x)
    case PyDict(members) => forall m | m in members :: PlainMember(m)
    case PyOther => false
    case _ => true
  }

  predicate PlainMember(m: Member) {
    m.key.StrKey? && Plain(m.value)
  }

  /** Longest way down from a value to one it contains. */
  function Height(v: Value): nat
    decreases v, 1
  {
    match v
    case PyList(items) => ItemsHeight(items)
    case PyTuple(items) => ItemsHeight(items)
    case PyDict(members) => MembersHeight(members)
    case _ => 0
  }

  function ItemsHeight(items: seq<Value>): nat
    decreases items, 0
  {
    if items == [] then 0 else MaxInt(1 + Height(items[0]), ItemsHeight(items[1..]))
  }

  function MembersHeight(members: seq<Member>): nat
    decreases members, 0
  {
    if members == [] then 0 else MaxInt(1 + MemberHeight(members[0]), MembersHeight(members[1..]))
  }

  function MemberHeight(m: Member): nat
    decreases m, 1
  {
    Height(m.value)
  }

  lemma {:induction false} ItemsFit(items: seq<Value>, depth: nat)
    requires depth <= MAX_DEPTH && forall x | x in items :: Plain(x)
    ensures (forall x | x in items :: Writable(x, depth + 1)) <==> depth + ItemsHeight(items) <= MAX_DEPTH
    decreases items, 0
  {
    if items != [] {
      var rest := items[1..];
      assert forall x :: x in items <==> x == items[0] || x in rest;
      WritableExactly(items[0], depth + 1);
      ItemsFit(rest, depth);
      if forall x | x in rest :: Writable(x, depth + 1) {
        assert Writable(items[0], depth + 1) ==> forall x | x in items :: Writable(x, depth + 1);
      } else {
        var x :| x in rest && !Writable(x, depth + 1);
        assert x in items;
      }
      assert !Writable(items[0], depth + 1) ==> items[0] in items;
    }
  }

  lemma {:induction false} MembersFit(members: seq<Member>, depth: nat)
    requires depth <= MAX_DEPTH && forall m | m in members :: PlainMember(m)
    ensures (forall m | m in members :: WritableMember(m, depth + 1))
            <==> depth + MembersHeight(members) <= MAX_DEPTH
    decreases members, 0
  {
    if members != [] {
      var rest := members[1..];
      assert forall m :: m in members <==> m == members[0] || m in rest;
      MemberFits(members[0], depth + 1);
      MembersFit(rest, depth);
      if forall m | m in rest :: WritableMember(m, depth + 1) {
        assert WritableMember(members[0], depth + 1) ==> forall m | m in members :: WritableMember(m, depth + 1);
      } else {
        var m :| m in rest && !WritableMember(m, depth + 1);
        assert m in members;
      }
      assert !WritableMember(members[0], depth + 1) ==> members[0] in members;
    }
  }

  lemma {:induction false} MemberFits(m: Member, depth: nat)
    requires PlainMember(m)
    ensures WritableMember(m, depth) <==> depth + MemberHeight(m) <= MAX_DEPTH
    decreases m, 1
  {
    WritableExactly(m.value, depth);
  }

  /** A plain value is written exactly when its nesting stays within the depth bound. */
  lemma {:induction false} WritableExactly(v: Value, depth: nat)
    requires Plain(v)
    ensures Writable(v, depth) <==> depth + Height(v) <= MAX_DEPTH
    decreases v, 1
  {
    if depth <= MAX_DEPTH {
      match v {
        case PyList(items) => ItemsFit(items, depth);
        case PyTuple(items) => ItemsFit(items, depth);
        case PyDict(members) => MembersFit(members, depth);
        case _ =>
      }
    }
  }

  /** Whatever is not plain is refused, at any depth. */
  lemma {:induction false} OnlyPlainIsWritten(v: Value, depth: nat)
    requires Writable(v, depth)
    ensures Plain(v)
    decreases v, 1
  {
    match v {
      case PyList(items) => forall x | x in items ensures Plain(x) { OnlyPlainIsWritten(x, depth + 1); }
      case PyTuple(items) => forall x | x in items ensures Plain(x) { OnlyPlainIsWritten(x, depth + 1); }
      case PyDict(members) =>
        forall m | m in members ensures PlainMember(m) { OnlyPlainMembers(m, depth + 1); }
      case _ =>
    }
  }

  lemma {:induction false} OnlyPlainMembers(m: Member, depth: nat)
    requires WritableMember(m, depth)
    ensures PlainMember(m)
    decreases m, 1
  {
    OnlyPlainIsWritten(m.value, depth);
  }

  // ---- The exact text --------------------------------------------------------------------------

  function ItemTexts(items: seq<Value>): seq<string> {
    seq(|items|, i requires 0 <= i < |items| => TextOf(items[i]))
  }

  function MemberTexts(members: seq<Member>): seq<string> {
    seq(|members|, i requires 0 <= i < |members| =>
      (if members[i].key.StrKey? then Quoted(members[i].key.name) else "") + ": " + TextOf(members[i].value))
  }

  lemma {:induction false} ItemsAreJoined(items: seq<Value>)
    ensures ItemsText(items) == Join(ItemTexts(items), ", ")
  {
    if |items| > 1 {
      ItemsAreJoined(items[1..]);
      assert ItemTexts(items)[1..] == ItemTexts(items[1..]);
    }
  }

  lemma {:induction false} MembersAreJoined(members: seq<Member>)
    ensures MembersText(members) == Join(MemberTexts(members), ", ")
  {
    if |members| > 1 {
      MembersAreJoined(members[1..]);
      assert MemberTexts(members)[1..] == MemberTexts(members[1..]);
    }
  }

  /** Brackets and braces, with a comma and a space between the parts and a colon and a space after
      each key. */
  lemma TextIsJoined(items: seq<Value>, members: seq<Member>)
    ensures TextOf(PyList(items)) == TextOf(PyTuple(items)) == "[" + Join(ItemTexts(items), ", ") + "]"
    ensures TextOf(PyDict(members)) == "{" + Join(MemberTexts(members), ", ") + "}"
  {
    ItemsAreJoined(items);
    MembersAreJoined(members);
  }

  /** Only quotes, backslashes and control characters are escaped: the usual ones in two characters, the
      others in six with lower-case digits. */
  lemma EscapesAre(c: char)
    ensures c >= ' ' && c != '"' && c != '\\' ==> EscapedChar(c) == [c]
    ensures c == '"' || c == '\\' ==> EscapedChar(c) == ['\\', c]
    ensures c < ' ' ==>
              if c == '\n' then EscapedChar(c) == "\\n" else if c == '\r' then EscapedChar(c) == "\\r"
              else if c == '\t' then EscapedChar(c) == "\\t" else if c == '\U{08}' then EscapedChar(c) == "\\b"
              else if c == '\U{0C}' then EscapedChar(c) == "\\f"
              else
                |EscapedChar(c)| == 6 && EscapedChar(c)[..5] == "\\u00" + (if c < '\U{10}' then "0" else "1")
                && EscapedChar(c)[5] == "0123456789abcdef"[c as int % 16]
  {
    if c < ' ' {
      HexIs(c as int / 16);
      HexIs(c as int % 16);
    }
  }

  lemma HexIs(d: nat)
    requires d < 16
    ensures HexDigit(d) == "0123456789abcdef"[d]
  {}

  // ---- Reading: the grammar of RFC 8259, sections 2 to 7 ---------------------------------------

  datatype Tree =
    | Null
    | Boolean(b: bool)
    | Number(negative: bool, digits: string, frac: string, exp: string)
    | Text_(s: string)
    | Array(items: seq<Tree>)
    | Object(members: seq<(string, Tree)>)

  type Parsed<T> = Option<(T, string)>

  predicate IsWs(c: char) {
    c == ' ' || c == '\t' || c == '\n' || c == '\r'
  }

  function SkipWs(s: string): (r: string)
    ensures |r| <= |s|
  {
    if s != "" && IsWs(s[0]) then SkipWs(s[1..]) else s
  }

  function HexValue(c: char): Option<nat> {
    if IsDigit(c) then Some(DigitValue(c))
    else if 'a' <= c <= 'f' then Some(c as int - 'a' as int + 10)
    else if 'A' <= c <= 'F' then Some(c as int - 'A' as int + 10)
    else None
  }

  /** Four hexadecimal digits at the start of `s`. */
  function Hex4(s: string): (r: Option<nat>)
    ensures r.Some? ==> |s| >= 4 && r.value < 0x10000
  {
    if |s| < 4 then None else
      match (HexValue(s[0]), HexValue(s[1]), HexValue(s[2]), HexValue(s[3]))
      case (Some(a), Some(b), Some(c), Some(d)) =>
        assert a < 16 && b < 16 && c < 16 && d < 16;
        Some(a * 0x1000 + b * 0x100 + c * 0x10 + d)
      case _ => None
  }

  function SimpleEscape(c: char): Option<char> {
    if c == '"' then Some('"')
    else if c == '\\' then Some('\\')
    else if c == '/' then Some('/')
    else if c == 'b' then Some('\U{08}')
    else if c == 'f' then Some('\U{0C}')
    else if c == 'n' then Some('\n')
    else if c == 'r' then Some('\r')
    else if c == 't' then Some('\t')
    else None
  }

  /** One character of a string, escaped or not, and what follows it. */
  function ParseChar(s: string): (r: Parsed<char>)
    ensures r.Some? ==> |r.value.1| < |s|
  {
    if s == "" || s[0] == '"' || s[0] < ' ' then None
    else if s[0] != '\\' then Some((s[0], s[1..]))
    else if |s| < 2 then None
    else if s[1] != 'u' then
      match SimpleEscape(s[1])
      case None => None
      case Some(c) => Some((c, s[2..]))
    else
      match Hex4(s[2..])
      case None => None
      case Some(high) =>
        if high < 0xD800 || high >= 0xE000 then Some((high as char, s[6..]))
        else if high >= 0xDC00 || |s| < 12 || s[6] != '\\' || s[7] != 'u' then None
        else
          match Hex4(s[8..])
          case None => None
          case Some(low) =>
            if low < 0xDC00 || low >= 0xE000 then None
            else Some(((0x10000 + (high - 0xD800) * 0x400 + (low - 0xDC00)) as char, s[12..]))
  }

  /** The rest of a string after its opening quote. */
  function ParseString(s: string): (r: Parsed<string>)
    ensures r.Some? ==> |r.value.1| < |s|
    decreases |s|
  {
    if s != "" && s[0] == '"' then Some(("", s[1..]))
    else
      match ParseChar(s)
      case None => None
      case Some((c, rest)) =>
        match ParseString(rest)
        case None => None
        case Some((cs, end)) => Some(([c] + cs, end))
  }

  function DigitRun(s: string): (n: nat)
    ensures n <= |s| && AllDigits(s[..n])
    ensures n < |s| ==> !IsDigit(s[n])
  {
    if s == "" || !IsDigit(s[0]) then 0 else
      var n := DigitRun(s[1..]);
      assert s[..n + 1] == [s[0]] + s[1..][..n];
      n + 1
  }

  /** `frac` without its point, empty if there is none. */
  function ParseFrac(s: string): (r: Parsed<string>)
    ensures r.Some? ==> |r.value.1| <= |s|
  {
    if s == "" || s[0] != '.' then Some(("", s)) else
      var n := DigitRun(s[1..]);
      if n == 0 then None else Some((s[1..][..n], s[1..][n..]))
  }

  /** `exp` from its sign on, empty if there is none. */
  function ParseExp(s: string): (r: Parsed<string>)
    ensures r.Some? ==> |r.value.1| <= |s|
  {
    if s == "" || (s[0] != 'e' && s[0] != 'E') then Some(("", s)) else
      var sign := if |s| > 1 && (s[1] == '+' || s[1] == '-') then 1 else 0;
      var n := DigitRun(s[1 + sign..]);
      if n == 0 then None else Some((s[1..1 + sign + n], s[1 + sign + n..]))
  }

  function ParseNumber(s: string): (r: Parsed<Tree>)
    ensures r.Some? ==> |r.value.1| < |s|
    ensures r.Some? ==> r.value.0.Number?
  {
    var negative := s != "" && s[0] == '-';
    var t := if negative then s[1..] else s;
    var run := DigitRun(t);
    if run == 0 then None
    else
      var n := if t[0] == '0' then 1 else run;
      match ParseFrac(t[n..])
      case None => None
      case Some((frac, u)) =>
        match ParseExp(u)
        case None => None
        case Some((exp, rest)) => Some((Number(negative, t[..n], frac, exp), rest))
  }

  function After<T>(prefix: string, t: T, s: string): Parsed<T> {
    if prefix <= s then Some((t, s[|prefix|..])) else None
  }

  /** A value without white space around it. */
  function ParseValue(s: string): (r: Parsed<Tree>)
    ensures r.Some? ==> |r.value.1| < |s|
    decreases |s|, 0
  {
    if s == "" then None
    else if s[0] == 'n' then After("null", Null, s)
    else if s[0] == 't' then After("true", Boolean(true), s)
    else if s[0] == 'f' then After("false", Boolean(false), s)
    else if s[0] == '"' then
      match ParseString(s[1..])
      case None => None
      case Some((text, rest)) => Some((Text_(text), rest))
    else if s[0] == '[' then
      var t := SkipWs(s[1..]);
      if t != "" && t[0] == ']' then Some((Array([]), t[1..]))
      else
        match ParseItems(t)
        case None => None
        case Some((items, rest)) => Some((Array(items), rest))
    else if s[0] == '{' then
      var t := SkipWs(s[1..]);
      if t != "" && t[0] == '}' then Some((Object([]), t[1..]))
      else
        match ParseMembers(t)
        case None => None
        case Some((members, rest)) => Some((Object(members), rest))
    else ParseNumber(s)
  }

  /** The elements of a non-empty array up to its closing bracket. */
  function ParseItems(s: string): (r: Parsed<seq<Tree>>)
    ensures r.Some? ==> |r.value.1| < |s|
    decreases |s|, 1
  {
    match ParseValue(SkipWs(s))
    case None => None
    case Some((item, rest)) =>
      var u := SkipWs(rest);
      if u == "" then None
      else if u[0] == ']' then Some(([item], u[1..]))
      else if u[0] != ',' then None
      else
        match ParseItems(u[1..])
        case None => None
        case Some((items, end)) => Some(([item] + items, end))
  }

  /** The members of a non-empty object up to its closing brace. */
  function ParseMembers(s: string): (r: Parsed<seq<(string, Tree)>>)
    ensures r.Some? ==> |r.value.1| < |s|
    decreases |s|, 1
  {
    match ParseMember(SkipWs(s))
    case None => None
    case Some((m, rest)) =>
      var u := SkipWs(rest);
      if u == "" then None
      else if u[0] == '}' then Some(([m], u[1..]))
      else if u[0] != ',' then None
      else
        match ParseMembers(u[1..])
        case None => None
        case Some((members, end)) => Some(([m] + members, end))
  }

  function ParseMember(s: string): (r: Parsed<(string, Tree)>)
    ensures r.Some? ==> |r.value.1| < |s|
    decreases |s|, 0
  {
    if s == "" || s[0] != '"' then None
    else
      match ParseString(s[1..])
      case None => None
      case Some((name, rest)) =>
        var u := SkipWs(rest);
        if u == "" || u[0] != ':' then None
        else
          match ParseValue(SkipWs(u[1..]))
          case None => None
          case Some((value, end)) => Some(((name, value), end))
  }

  /** A whole JSON text. */
  function ParseText(s: string): Option<Tree> {
    match ParseValue(SkipWs(s))
    case None => None
    case Some((tree, rest)) => if SkipWs(rest) == "" then Some(tree) else None
  }

  // ---- The visitor ----------------------------------------------------------------------------

  /** What `json_bytes_to_py` builds. A number with a fraction or an exponent, or too large for 64
      bits, becomes the float nearest to it, kept here as written. */
  datatype Read =
    | ReadNone
    | ReadBool(b: bool)
    | ReadInt(i: int)
    | ReadFloat(negative: bool, digits: string, frac: string, exp: string)
    | ReadStr(s: string)
    | ReadList(items: seq<Read>)
    | ReadDict(entries: seq<(string, Read)>)

  /** `dict[k] = v`: an existing key keeps its place. */
  function SetItem(entries: seq<(string, Read)>, k: string, v: Read): seq<(string, Read)> {
    if entries == [] then [(k, v)]
    else if entries[0].0 == k then [(k, v)] + entries[1..]
    else [entries[0]] + SetItem(entries[1..], k, v)
  }

  function VisitNumber(t: Tree): Read
    requires t.Number?
  {
    if t.frac == "" && t.exp == "" && t.digits != "" && AllDigits(t.digits) then
      var n := ReadNat(t.digits);
      if !t.negative && n <= U64_MAX then ReadInt(n)
      else if t.negative && 0 < n <= -I64_MIN then ReadInt(-(n as int))
      else ReadFloat(t.negative, t.digits, t.frac, t.exp)
    else ReadFloat(t.negative, t.digits, t.frac, t.exp)
  }

  function Visit(t: Tree): Read
    decreases t, 1
  {
    match t
    case Null => ReadNone
    case Boolean(b) => ReadBool(b)
    case Number(_, _, _, _) => VisitNumber(t)
    case Text_(s) => ReadStr(s)
    case Array(items) => ReadList(VisitItems(items))
    case Object(members) => ReadDict(VisitMembers(members, []))
  }

  function VisitItems(items: seq<Tree>): seq<Read>
    decreases items, 0
  {
    if items == [] then [] else [Visit(items[0])] + VisitItems(items[1..])
  }

  function VisitMembers(members: seq<(string, Tree)>, entries: seq<(string, Read)>): seq<(string, Read)>
    decreases members, 0
  {
    if members == [] then entries
    else VisitMembers(members[1..], SetItem(entries, members[0].0, VisitMember(members[0])))
  }

  function VisitMember(m: (string, Tree)): Read
    decreases m, 1
  {
    Visit(m.1)
  }

  /** `json_bytes_to_py`, on text. */
  function ReadJson(s: string): Option<Read> {
    match ParseText(s)
    case None => None
    case Some(tree) => Some(Visit(tree))
  }

  /** The visitor as it runs: lists are appended to and dictionaries filled one by one. */
  method BuildPy(t: Tree) returns (r: Read)
    ensures r == Visit(t)
    decreases t, 1
  {
    match t {
      case Null => r := ReadNone;
      case Boolean(b) => r := ReadBool(b);
      case Number(_, _, _, _) => r := VisitNumber(t);
      case Text_(s) => r := ReadStr(s);
      case Array(items) =>
        var list := VisitSeq(items);
        r := ReadList(list);
      case Object(members) =>
        var dict := VisitMap(members);
        r := ReadDict(dict);
    }
  }

  method VisitSeq(items: seq<Tree>) returns (list: seq<Read>)
    ensures list == VisitItems(items)
    decreases items, 0
  {
    list := [];
    var i := 0;
    while i < |items|
      invariant 0 <= i <= |items|
      invariant VisitItems(items) == list + VisitItems(items[i..])
    {
      var elem := BuildPy(items[i]);
      list := list + [elem];
      i := i + 1;
    }
  }

  method VisitPair(m: (string, Tree)) returns (v: Read)
    ensures v == VisitMember(m)
    decreases m, 1
  {
    v := BuildPy(m.1);
  }

  method VisitMap(members: seq<(string, Tree)>) returns (dict: seq<(string, Read)>)
    ensures dict == VisitMembers(members, [])
    decreases members, 0
  {
    dict := [];
    var i := 0;
    while i < |members|
      invariant 0 <= i <= |members|
      invariant VisitMembers(members, []) == VisitMembers(members[i..], dict)
    {
      var v := VisitPair(members[i]);
      dict := SetItem(dict, members[i].0, v);
      i := i + 1;
    }
  }

  // ---- What is read ----------------------------------------------------------------------------

  /** A key that is there already keeps its place and gets the new value; others go to the end. */
  lemma {:induction false} SetItemIs(entries: seq<(string, Read)>, k: string, v: Read, i: nat)
    requires i < |entries| && entries[i].0 == k && forall j | 0 <= j < i :: entries[j].0 != k
    ensures SetItem(entries, k, v) == entries[i := (k, v)]
  {
    if i > 0 {
      SetItemIs(entries[1..], k, v, i - 1);
      assert entries[i := (k, v)] == [entries[0]] + entries[1..][i - 1 := (k, v)];
    }
  }

  lemma {:induction false} SetItemAppends(entries: seq<(string, Read)>, k: string, v: Read)
    requires forall j | 0 <= j < |entries| :: entries[j].0 != k
    ensures SetItem(entries, k, v) == entries + [(k, v)]
  {
    if entries != [] {
      SetItemAppends(entries[1..], k, v);
      assert entries == [entries[0]] + entries[1..];
    }
  }

  /** A number is read as an integer if it has neither fraction nor exponent, fits 64 bits with or
      without a sign, and is not minus zero; as a float otherwise. */
  lemma IntegersAreRead(negative: bool, digits: string, frac: string, exp: string)
    requires digits != "" && AllDigits(digits)
    ensures var r := VisitNumber(Number(negative, digits, frac, exp));
            var n: int := ReadNat(digits);
            if frac == "" && exp == "" && (if negative then 0 < n <= 0x8000_0000_0000_0000 else n <= U64_MAX)
            then r == ReadInt(if negative then -n else n)
            else r == ReadFloat(negative, digits, frac, exp)
  {}

  // ---- Round trip -----------------------------------------------------------------------------

  /** Values the round trip is promised for: text keys without repetition, as in every Python
      dictionary, and integers of at most 64 bits. */
  predicate Accepted(v: Value) {
    match v
    case PyInt(i) => I64_MIN <= i <= U64_MAX
    case PyList(items) => forall x | x in items :: Accepted(x)
    case PyTuple(items) => forall x | x in items :: Accepted(x)
    case PyDict(members) =>
      (forall m | m in members :: AcceptedMember(m))
      && forall i, j | 0 <= i < j < |members| :: members[i].key != members[j].key
    case PyOther => false
    case _ => true
  }

  predicate AcceptedMember(m: Member) {
    m.key.StrKey? && Accepted(m.value)
  }

  function NameOf(k: Key): string {
    if k.StrKey? then k.name else ""
  }

  /** The same value as Python reads it back: tuples become lists. */
  function Image(v: Value): Read
    decreases v, 1
  {
    match v
    case PyNone => ReadNone
    case PyBool(b) => ReadBool(b)
    case PyInt(i) => ReadInt(i)
    case PyStr(s) => ReadStr(s)
    case PyList(items) => ReadList(ItemImages(items))
    case PyTuple(items) => ReadList(ItemImages(items))
    case PyDict(members) => ReadDict(MemberImages(members))
    case PyOther => ReadNone
  }

  function ItemImages(items: seq<Value>): seq<Read>
    decreases items, 0
  {
    if items == [] then [] else [Image(items[0])] + ItemImages(items[1..])
  }

  function MemberImages(members: seq<Member>): (r: seq<(string, Read)>)
    ensures |r| == |members| && forall i | 0 <= i < |members| :: r[i].0 == NameOf(members[i].key)
    decreases members, 0
  {
    if members == [] then [] else [MemberImage(members[0])] + MemberImages(members[1..])
  }

  function MemberImage(m: Member): (r: (string, Read))
    ensures r.0 == NameOf(m.key)
    decreases m, 1
  {
    (NameOf(m.key), Image(m.value))
  }

  /** The syntax tree of what is written. */
  function TreeOf(v: Value): Tree
    decreases v, 1
  {
    match v
    case PyNone => Null
    case PyBool(b) => Boolean(b)
    case PyInt(i) => Number(i < 0, PrintNat(if i < 0 then -i else i), "", "")
    case PyStr(s) => Text_(s)
    case PyList(items) => Array(ItemTrees(items))
    case PyTuple(items) => Array(ItemTrees(items))
    case PyDict(members) => Object(MemberTrees(members))
    case PyOther => Null
  }

  function ItemTrees(items: seq<Value>): seq<Tree>
    decreases items, 0
  {
    if items == [] then [] else [TreeOf(items[0])] + ItemTrees(items[1..])
  }

  function MemberTrees(members: seq<Member>): (r: seq<(string, Tree)>)
    ensures |r| == |members|
    decreases members, 0
  {
    if members == [] then [] else [MemberTree(members[0])] + MemberTrees(members[1..])
  }

  function MemberTree(m: Member): (string, Tree)
    decreases m, 1
  {
    (NameOf(m.key), TreeOf(m.value))
  }

  // Strings

  lemma HexDigitReads(d: nat)
    requires d < 16
    ensures HexValue(HexDigit(d)) == Some(d)
  {}

  lemma EscapedCharReads(c: char, rest: string)
    ensures ParseChar(EscapedChar(c) + rest) == Some((c, rest))
    ensures EscapedChar(c)[0] != '"'
  {
    var s := EscapedChar(c) + rest;
    if SimpleEscaped(c) {
      assert s[2..] == rest;
    } else if c < ' ' {
      var code := c as int;
      HexDigitReads(0);
      HexDigitReads(code / 16);
      HexDigitReads(code % 16);
      assert s == "\\u00" + [HexDigit(code / 16), HexDigit(code % 16)] + rest;
      assert s[2..][0] == '0' && s[2..][1] == '0';
      assert s[2..][2] == HexDigit(code / 16) && s[2..][3] == HexDigit(code % 16);
      assert Hex4(s[2..]) == Some(code);
      assert s[6..] == rest;
    } else {
      assert s[1..] == rest;
    }
  }

  predicate SimpleEscaped(c: char) {
    c in {'"', '\\', '\U{08}', '\U{0C}', '\n', '\r', '\t'}
  }

  lemma CharThenString(c: char, more: string)
    ensures ParseString(EscapedChar(c) + more) == match ParseString(more)
                                                  case None => None
                                                  case Some((cs, end)) => Some(([c] + cs, end))
  {
    EscapedCharReads(c, more);
  }

  lemma {:induction false} EscapedReads(s: string, rest: string)
    ensures ParseString(Escaped(s) + "\"" + rest) == Some((s, rest))
  {
    if s == "" {
      assert (Escaped(s) + "\"" + rest)[1..] == rest;
    } else {
      var more := Escaped(s[1..]) + "\"" + rest;
      assert Escaped(s) + "\"" + rest == EscapedChar(s[0]) + more;
      CharThenString(s[0], more);
      EscapedReads(s[1..], rest);
      assert s == [s[0]] + s[1..];
    }
  }

  // Numbers

  /** What may follow a number without extending it. */
  predicate EndsNumber(rest: string) {
    rest != "" ==> !IsDigit(rest[0]) && rest[0] != '.' && rest[0] != 'e' && rest[0] != 'E'
  }

  lemma {:induction false} RunOfDigits(digits: string, rest: string)
    requires AllDigits(digits) && EndsNumber(rest)
    ensures DigitRun(digits + rest) == |digits|
  {
    if digits == "" {
      assert digits + rest == rest;
    } else {
      assert (digits + rest)[1..] == digits[1..] + rest;
      RunOfDigits(digits[1..], rest);
    }
  }

  lemma IntegerReads(i: int, rest: string)
    requires EndsNumber(rest)
    ensures ParseNumber(PrintInt(i) + rest) == Some((TreeOf(PyInt(i)), rest))
  {
    if i < 0 {
      PrintedNegative(i, rest);
      NegativeReads(PrintNat(-i), rest);
    } else {
      ReadAfterPrint(i);
      NaturalReads(PrintNat(i), rest);
    }
  }

  lemma PrintedNegative(i: int, rest: string)
    requires i < 0
    ensures Canonical(PrintNat(-i)) && PrintInt(i) + rest == "-" + (PrintNat(-i) + rest)
  {
    ReadAfterPrint(-i);
  }

  lemma NaturalReads(digits: string, rest: string)
    requires Canonical(digits) && EndsNumber(rest)
    ensures ParseNumber(digits + rest) == Some((Number(false, digits, "", ""), rest))
  {
    NoFraction(rest);
    NatReads(digits, rest);
  }

  lemma NegativeReads(digits: string, rest: string)
    requires Canonical(digits) && EndsNumber(rest)
    ensures ParseNumber("-" + (digits + rest)) == Some((Number(true, digits, "", ""), rest))
  {
    NoFraction(rest);
    NatReads(digits, rest);
    assert ("-" + (digits + rest))[1..] == digits + rest;
  }

  lemma NoFraction(rest: string)
    requires EndsNumber(rest)
    ensures ParseFrac(rest) == Some(("", rest)) && ParseExp(rest) == Some(("", rest))
  {}

  lemma NatReads(digits: string, rest: string)
    requires Canonical(digits) && EndsNumber(rest)
    ensures var t := digits + rest;
            && t[0] == digits[0] && DigitRun(t) == |digits|
            && (if t[0] == '0' then 1 else DigitRun(t)) == |digits|
            && t[..|digits|] == digits && t[|digits|..] == rest
  {
    RunOfDigits(digits, rest);
  }

  lemma IntegerVisits(i: int)
    requires I64_MIN <= i <= U64_MAX
    ensures Visit(TreeOf(PyInt(i))) == ReadInt(i)
  {
    ReadAfterPrint(if i < 0 then -i else i);
  }

  // Values

  /** A written value starts with a character that is neither white space nor a closing
      bracket. */
  lemma FirstChar(v: Value)
    requires Accepted(v)
    ensures TextOf(v) != "" && !IsWs(TextOf(v)[0]) && TextOf(v)[0] != ']'
    ensures v.PyInt? ==> TextOf(v)[0] == '-' || IsDigit(TextOf(v)[0])
  {
    if v.PyInt? {
      ReadAfterPrint(if v.i < 0 then -v.i else v.i);
    }
  }

  lemma NoWs(s: string)
    requires s != "" && !IsWs(s[0])
    ensures SkipWs(s) == s
  {}

  lemma WordsRead(rest: string)
    ensures ParseValue("null" + rest) == Some((Null, rest))
    ensures ParseValue("true" + rest) == Some((Boolean(true), rest))
    ensures ParseValue("false" + rest) == Some((Boolean(false), rest))
  {
    assert ("null" + rest)[4..] == rest;
    assert ("true" + rest)[4..] == rest;
    assert ("false" + rest)[5..] == rest;
  }

  lemma IntegerStarts(i: int)
    ensures PrintInt(i) != "" && (PrintInt(i)[0] == '-' || IsDigit(PrintInt(i)[0]))
  {
    ReadAfterPrint(if i < 0 then -i else i);
  }

  lemma NumberStarts(s: string)
    requires s != "" && (s[0] == '-' || IsDigit(s[0]))
    ensures ParseValue(s) == ParseNumber(s)
  {
    StartsNothingElse(s[0]);
    OtherwiseNumber(s);
  }

  lemma StartsNothingElse(c: char)
    requires c == '-' || IsDigit(c)
    ensures c != 'n' && c != 't' && c != 'f' && c != '"' && c != '[' && c != '{'
  {}

  lemma OtherwiseNumber(s: string)
    requires s != "" && s[0] != 'n' && s[0] != 't' && s[0] != 'f' && s[0] != '"' && s[0] != '[' && s[0] != '{'
    ensures ParseValue(s) == ParseNumber(s)
  {}

  lemma IntegerValueReads(i: int, rest: string)
    requires EndsNumber(rest)
    ensures ParseValue(PrintInt(i) + rest) == Some((TreeOf(PyInt(i)), rest))
  {
    var digits := PrintInt(i);
    IntegerStarts(i);
    IntegerReads(i, rest);
    assert (digits + rest)[0] == digits[0];
    NumberStarts(digits + rest);
  }

  lemma StringValueReads(text: string, rest: string)
    ensures ParseValue(Quoted(text) + rest) == Some((Text_(text), rest))
  {
    var s := Quoted(text) + rest;
    assert s[0] == '"' && s[1..] == Escaped(text) + "\"" + rest;
    EscapedReads(text, rest);
  }

  lemma {:induction false} ValueReads(v: Value, rest: string)
    requires Accepted(v) && EndsNumber(rest)
    ensures ParseValue(TextOf(v) + rest) == Some((TreeOf(v), rest))
    decreases v, 1
  {
    match v {
      case PyNone => WordsRead(rest);
      case PyBool(b) => WordsRead(rest);
      case PyInt(i) => IntegerValueReads(i, rest);
      case PyStr(text) => StringValueReads(text, rest);
      case PyList(items) => ArrayReads(items, rest);
      case PyTuple(items) => ArrayReads(items, rest);
      case PyDict(members) => ObjectReads(members, rest);
    }
  }

  lemma {:induction false} ArrayReads(items: seq<Value>, rest: string)
    requires forall x | x in items :: Accepted(x)
    ensures ParseValue("[" + ItemsText(items) + "]" + rest) == Some((Array(ItemTrees(items)), rest))
    decreases items, 2
  {
    var s := "[" + ItemsText(items) + "]" + rest;
    if items == [] {
      assert s[1..] == "]" + rest;
      NoWs(s[1..]);
      assert s[1..][1..] == rest;
    } else {
      var t := ItemsText(items) + "]" + rest;
      assert s[1..] == t;
      FirstChar(items[0]);
      ItemsStart(items);
      assert t[0] == ItemsText(items)[0];
      NoWs(t);
      ItemsRead(items, rest);
    }
  }

  lemma ItemsStart(items: seq<Value>)
    requires items != [] && TextOf(items[0]) != ""
    ensures ItemsText(items) != "" && ItemsText(items)[0] == TextOf(items[0])[0]
  {}

  lemma {:induction false} ItemsRead(items: seq<Value>, rest: string)
    requires items != [] && forall x | x in items :: Accepted(x)
    ensures ParseItems(ItemsText(items) + "]" + rest) == Some((ItemTrees(items), rest))
    decreases items, 1
  {
    var s := ItemsText(items) + "]" + rest;
    var first := TextOf(items[0]);
    assert items[0] in items;
    FirstChar(items[0]);
    ItemsStart(items);
    assert s[0] == first[0];
    NoWs(s);
    if |items| == 1 {
      assert s == first + ("]" + rest);
      ValueReads(items[0], "]" + rest);
      ParseLastItem(s, TreeOf(items[0]), rest);
      assert ItemTrees(items) == [TreeOf(items[0])];
    } else {
      var tail := ItemsText(items[1..]) + "]" + rest;
      CommaThenTail(first, ItemsText(items[1..]), "]", rest);
      ValueReads(items[0], ", " + tail);
      ParseOneMoreItem(s, TreeOf(items[0]), tail);
      ItemsRead(items[1..], rest);
    }
  }

  lemma CommaThenTail(first: string, others: string, close: string, rest: string)
    ensures first + ", " + others + close + rest == first + (", " + (others + close + rest))
  {}

  lemma ParseLastItem(s: string, item: Tree, rest: string)
    requires ParseValue(SkipWs(s)) == Some((item, "]" + rest))
    ensures ParseItems(s) == Some(([item], rest))
  {
    NoWs("]" + rest);
    assert ("]" + rest)[1..] == rest;
  }

  lemma ParseOneMoreItem(s: string, item: Tree, tail: string)
    requires ParseValue(SkipWs(s)) == Some((item, ", " + tail))
    ensures ParseItems(s) == match ParseItems(tail)
                             case None => None
                             case Some((items, end)) => Some(([item] + items, end))
  {
    NoWs(", " + tail);
    assert (", " + tail)[1..] == " " + tail && (" " + tail)[1..] == tail;
    ItemsSkipWs(" " + tail, tail);
  }

  /** White space before the first item does not matter. */
  lemma ItemsSkipWs(s: string, t: string)
    requires SkipWs(s) == SkipWs(t)
    ensures ParseItems(s) == ParseItems(t)
  {}

  lemma AfterColon(tail: string)
    requires tail != "" && !IsWs(tail[0])
    ensures var u := ": " + tail; SkipWs(u) == u && u[0] == ':' && SkipWs(u[1..]) == tail
  {
    var u := ": " + tail;
    NoWs(u);
    assert u[1..] == " " + tail && (" " + tail)[1..] == tail;
    NoWs(tail);
  }

  lemma ColonThenValue(s: string, name: string, tail: string)
    requires s != "" && s[0] == '"' && ParseString(s[1..]) == Some((name, ": " + tail))
    requires tail != "" && !IsWs(tail[0])
    ensures ParseMember(s) == match ParseValue(tail)
                              case None => None
                              case Some((value, end)) => Some(((name, value), end))
  {
    AfterColon(tail);
  }

  /** A name and a colon lead to the value. */
  lemma NameThenValue(name: string, tail: string)
    requires tail != "" && !IsWs(tail[0])
    ensures ParseMember(Quoted(name) + ": " + tail) == match ParseValue(tail)
                                                       case None => None
                                                       case Some((value, end)) => Some(((name, value), end))
  {
    var s := Quoted(name) + ": " + tail;
    QuoteOpens(Escaped(name), ": ", tail);
    EscapedReads(name, ": " + tail);
    ColonThenValue(s, name, tail);
  }

  lemma QuoteOpens(body: string, mid: string, tail: string)
    ensures var s := "\"" + body + "\"" + mid + tail;
            s[0] == '"' && s[1..] == body + "\"" + (mid + tail)
  {}

  lemma {:induction false} MemberReads(m: Member, rest: string)
    requires AcceptedMember(m) && EndsNumber(rest)
    ensures ParseMember(MemberText(m) + rest) == Some((MemberTree(m), rest))
    ensures MemberText(m)[0] == '"'
    decreases m, 1
  {
    var name, text := m.key.name, TextOf(m.value);
    FirstChar(m.value);
    assert MemberText(m) + rest == Quoted(name) + ": " + (text + rest);
    assert (text + rest)[0] == text[0];
    NameThenValue(name, text + rest);
    ValueReads(m.value, rest);
  }

  lemma {:induction false} ObjectReads(members: seq<Member>, rest: string)
    requires forall m | m in members :: AcceptedMember(m)
    ensures ParseValue("{" + MembersText(members) + "}" + rest) == Some((Object(MemberTrees(members)), rest))
    decreases members, 2
  {
    var s := "{" + MembersText(members) + "}" + rest;
    if members == [] {
      assert s[1..] == "}" + rest;
      NoWs(s[1..]);
      assert s[1..][1..] == rest;
    } else {
      var t := MembersText(members) + "}" + rest;
      assert s[1..] == t;
      assert members[0] in members;
      MembersStart(members);
      assert t[0] == '"';
      NoWs(t);
      MembersRead(members, rest);
    }
  }

  lemma MembersStart(members: seq<Member>)
    requires members != [] && members[0].key.StrKey?
    ensures MembersText(members) != "" && MembersText(members)[0] == '"'
  {
    assert MemberText(members[0])[0] == '"';
  }

  lemma {:induction false} MembersRead(members: seq<Member>, rest: string)
    requires members != [] && forall m | m in members :: AcceptedMember(m)
    ensures ParseMembers(MembersText(members) + "}" + rest) == Some((MemberTrees(members), rest))
    decreases members, 1
  {
    var s := MembersText(members) + "}" + rest;
    var first := MemberText(members[0]);
    assert members[0] in members;
    MembersStart(members);
    assert s[0] == '"';
    NoWs(s);
    if |members| == 1 {
      assert s == first + ("}" + rest);
      MemberReads(members[0], "}" + rest);
      ParseLastMember(s, MemberTree(members[0]), rest);
      assert MemberTrees(members) == [MemberTree(members[0])];
    } else {
      var tail := MembersText(members[1..]) + "}" + rest;
      CommaThenTail(first, MembersText(members[1..]), "}", rest);
      MemberReads(members[0], ", " + tail);
      ParseOneMoreMember(s, MemberTree(members[0]), tail);
      MembersRead(members[1..], rest);
    }
  }

  lemma ParseLastMember(s: string, m: (string, Tree), rest: string)
    requires ParseMember(SkipWs(s)) == Some((m, "}" + rest))
    ensures ParseMembers(s) == Some(([m], rest))
  {
    NoWs("}" + rest);
    assert ("}" + rest)[1..] == rest;
  }

  lemma ParseOneMoreMember(s: string, m: (string, Tree), tail: string)
    requires ParseMember(SkipWs(s)) == Some((m, ", " + tail))
    ensures ParseMembers(s) == match ParseMembers(tail)
                               case None => None
                               case Some((members, end)) => Some(([m] + members, end))
  {
    NoWs(", " + tail);
    assert (", " + tail)[1..] == " " + tail && (" " + tail)[1..] == tail;
    MembersSkipWs(" " + tail, tail);
  }

  lemma MembersSkipWs(s: string, t: string)
    requires SkipWs(s) == SkipWs(t)
    ensures ParseMembers(s) == ParseMembers(t)
  {}

  // The visitor on what was written

  lemma {:induction false} VisitsToImage(v: Value)
    requires Accepted(v)
    ensures Visit(TreeOf(v)) == Image(v)
    decreases v, 1
  {
    match v {
      case PyInt(i) => IntegerVisits(i);
      case PyList(items) => ItemsVisit(items);
      case PyTuple(items) => ItemsVisit(items);
      case PyDict(members) => MembersVisit(members, []);
      case _ =>
    }
  }

  lemma {:induction false} ItemsVisit(items: seq<Value>)
    requires forall x | x in items :: Accepted(x)
    ensures VisitItems(ItemTrees(items)) == ItemImages(items)
    decreases items, 0
  {
    if items != [] {
      VisitsToImage(items[0]);
      ItemsVisit(items[1..]);
    }
  }

  lemma {:induction false} MemberVisits(m: Member)
    requires AcceptedMember(m)
    ensures (MemberTree(m).0, VisitMember(MemberTree(m))) == MemberImage(m)
    decreases m, 1
  {
    VisitsToImage(m.value);
  }

  /** A new key goes to the end of a dictionary. */
  lemma {:induction false} SetNewItem(entries: seq<(string, Read)>, k: string, v: Read)
    requires forall i | 0 <= i < |entries| :: entries[i].0 != k
    ensures SetItem(entries, k, v) == entries + [(k, v)]
  {
    if entries != [] {
      SetNewItem(entries[1..], k, v);
    }
  }

  lemma {:induction false} MembersVisit(members: seq<Member>, entries: seq<(string, Read)>)
    requires forall m | m in members :: AcceptedMember(m)
    requires forall i, j | 0 <= i < j < |members| :: members[i].key != members[j].key
    requires forall i, j | 0 <= i < |entries| && 0 <= j < |members| :: entries[i].0 != NameOf(members[j].key)
    ensures VisitMembers(MemberTrees(members), entries) == entries + MemberImages(members)
    decreases members, 0
  {
    if members != [] {
      var m, rest := members[0], members[1..];
      assert m in members;
      MemberVisits(m);
      SetNewItem(entries, MemberImage(m).0, MemberImage(m).1);
      var next := entries + [MemberImage(m)];
      forall i, j | 0 <= i < |next| && 0 <= j < |rest| ensures next[i].0 != NameOf(rest[j].key) {
        assert rest[j] == members[j + 1] && members[j + 1] in members;
      }
      MembersVisit(rest, next);
      VisitFirst(MemberTree(m), MemberTrees(rest), entries);
      Appended(entries, MemberImage(m), MemberImages(rest));
    }
  }

  lemma VisitFirst(m: (string, Tree), rest: seq<(string, Tree)>, entries: seq<(string, Read)>)
    ensures VisitMembers([m] + rest, entries) == VisitMembers(rest, SetItem(entries, m.0, VisitMember(m)))
  {
    assert ([m] + rest)[1..] == rest;
  }

  lemma Appended<T>(a: seq<T>, x: T, b: seq<T>)
    ensures a + [x] + b == a + ([x] + b)
  {}

  /** Every accepted value that the writer writes reads back, under the grammar of RFC 8259 and
      the visitor, to the same value with tuples turned into lists. */
  lemma WrittenReadsBack(v: Value)
    requires Accepted(v)
    ensures ReadJson(TextOf(v)) == Some(Image(v))
  {
    var s := TextOf(v);
    FirstChar(v);
    NoWs(s);
    assert s + "" == s;
    ValueReads(v, "");
    VisitsToImage(v);
  }

  /** What is accepted is plain, so that the depth bound alone decides whether it is written. */
  lemma {:induction false} AcceptedIsPlain(v: Value)
    requires Accepted(v)
    ensures Plain(v)
    decreases v
  {
    match v {
      case PyList(items) =>
        forall x | x in items ensures Plain(x) { AcceptedIsPlain(x); }
      case PyTuple(items) =>
        forall x | x in items ensures Plain(x) { AcceptedIsPlain(x); }
      case PyDict(members) =>
        forall m | m in members ensures PlainMember(m) { AcceptedIsPlain(m.value); }
      case _ =>
    }
  }

  /** `py_to_json_bytes`. */
  method PyToJsonBytes(v: Value) returns (r: Option<string>)
    ensures r == if Writable(v, 0) then Some(TextOf(v)) else None
  {
    var writer := new Writer();
    var ok := WritePyJson(v, writer, 0);
    if !ok {
      return None;
    }
    assert "" + TextOf(v) == TextOf(v);
    return Some(writer.out);
  }

  /** For an accepted value, writing succeeds exactly up to 128 levels of nesting, and what is
      written reads back without loss but for the distinction of tuples. */
  lemma AcceptedRoundTrip(v: Value)
    requires Accepted(v)
    ensures Writable(v, 0) <==> Height(v) <= MAX_DEPTH
    ensures ReadJson(TextOf(v)) == Some(Image(v))
  {
    AcceptedIsPlain(v);
    WritableExactly(v, 0);
    WrittenReadsBack(v);
  }
}
