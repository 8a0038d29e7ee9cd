/** Compact JSON text as `json.dumps(value, separators=(",", ":"), ensure_ascii=False)` writes it, and the
    proof that the text determines the value. Objects keep their members in order, as Python dicts do. */
module Json {
  import Collections
  import Decimal

  datatype Json =
    | Null
    | Bool(b: bool)
    | Num(n: int)
    | Str(s: string)
    | Arr(items: seq<Json>)
    | Obj(members: seq<Member>)

  datatype Member = Member(key: string, value: Json)

  function Hex(d: nat): char
    requires d < 16
  {
    if d < 10 then '0' + d as char else 'a' + (d - 10) as char
  }

  function EscapeChar(c: char): (e: string)
    ensures |e| >= 1 && e[0] != '"'
  {
    if c == '"' then "\\\""
    else if c == '\\' then "\\\\"
    else if c == '\n' then "\\n"
    else if c == '\r' then "\\r"
    else if c == '\t' then "\\t"
    else if c as int == 8 then "\\b"
    else if c as int == 12 then "\\f"
    else if c < ' ' then ['\\', 'u', '0', '0', Hex(c as int / 16), Hex(c as int % 16)]
    else [c]
  }

  // The writer takes the text that follows, so that a value and what comes after it are one string.

  function WriteChars(s: string, rest: string): string {
    if s == "" then ['"'] + rest else EscapeChar(s[0]) + WriteChars(s[1..], rest)
  }

  function WriteString(s: string, rest: string): string {
    ['"'] + WriteChars(s, rest)
  }

  function Write(j: Json, rest: string): (t: string)
    ensures |t| >= 1 && t[0] == Lead(j)
    decreases j, 2
  {
    match j
    case Null => "null" + rest
    case Bool(b) => if b then "true" + rest else "false" + rest
    case Num(n) => Decimal.Of(n) + rest
    case Str(s) => WriteString(s, rest)
    case Arr(items) => ['['] + WriteItems(items, rest)
    case Obj(members) => ['{'] + WriteMembers(members, rest)
  }

  function WriteItems(items: seq<Json>, rest: string): (t: string)
    ensures |t| >= 1 && t[0] == if items == [] then ']' else Lead(items[0])
    decreases items, 1
  {
    if items == [] then [']'] + rest else Write(items[0], WriteItemsTail(items[1..], rest))
  }

  function WriteItemsTail(items: seq<Json>, rest: string): (t: string)
    ensures |t| >= 1 && t[0] == if items == [] then ']' else ','
    decreases items, 0
  {
    if items == [] then [']'] + rest else [','] + Write(items[0], WriteItemsTail(items[1..], rest))
  }

  function WriteMember(m: Member, rest: string): (t: string)
    ensures |t| >= 1 && t[0] == '"'
    decreases m, 3
  {
    WriteString(m.key, [':'] + Write(m.value, rest))
  }

  function WriteMembers(members: seq<Member>, rest: string): (t: string)
    ensures |t| >= 1 && t[0] == if members == [] then '}' else '"'
    decreases members, 1
  {
    if members == [] then ['}'] + rest else WriteMember(members[0], WriteMembersTail(members[1..], rest))
  }

  function WriteMembersTail(members: seq<Member>, rest: string): (t: string)
    ensures |t| >= 1 && t[0] == if members == [] then '}' else ','
    decreases members, 0
  {
    if members == [] then ['}'] + rest else [','] + WriteMember(members[0], WriteMembersTail(members[1..], rest))
  }

  function Dumps(j: Json): string {
    Write(j, "")
  }

  /** The first character of a value tells its kind. */
  function Lead(j: Json): (c: char)
    ensures c != ']'
  {
    match j
    case Null => 'n'
    case Bool(b) => if b then 't' else 'f'
    case Num(n) => Decimal.Of(n)[0]
    case Str(_) => '"'
    case Arr(_) => '['
    case Obj(_) => '{'
  }

  /** What may follow a value in JSON text. */
  predicate Ends(t: string) {
    t == "" || t[0] == ',' || t[0] == ']' || t[0] == '}'
  }

  lemma EscapeCharUnique(c: char, x: string, d: char, y: string)
    requires EscapeChar(c) + x == EscapeChar(d) + y
    ensures c == d && x == y
  {
    var e, f := EscapeChar(c), EscapeChar(d);
    var t := e + x;
    assert t[0] == e[0] && t[0] == f[0];
    if |e| >= 2 && |f| >= 2 {
      assert t[1] == e[1] && t[1] == f[1];
      if |e| == 6 && |f| == 6 {
        assert t[4] == e[4] && t[4] == f[4] && t[5] == e[5] && t[5] == f[5];
      }
    }
    assert c == d;
    Collections.Cancel(e, x, y);
  }

  lemma FirstChar(s: string, rest: string)
    ensures |WriteChars(s, rest)| >= 1
    ensures WriteChars(s, rest)[0] == '"' <==> s == ""
  {
  }

  lemma {:induction false} CharsUnique(a: string, x: string, b: string, y: string)
    requires WriteChars(a, x) == WriteChars(b, y)
    ensures a == b && x == y
  {
    FirstChar(a, x);
    FirstChar(b, y);
    if a == "" {
      Collections.Cancel(['"'], x, y);
    } else {
      EscapeCharUnique(a[0], WriteChars(a[1..], x), b[0], WriteChars(b[1..], y));
      CharsUnique(a[1..], x, b[1..], y);
    }
  }

  lemma StringUnique(a: string, x: string, b: string, y: string)
    requires WriteString(a, x) == WriteString(b, y)
    ensures a == b && x == y
  {
    Collections.Cancel(['"'], WriteChars(a, x), WriteChars(b, y));
    CharsUnique(a, x, b, y);
  }

  predicate NumberChar(c: char) {
    Decimal.IsDigit(c) || c == '-'
  }

  /** Two runs of number characters that end in the same text are equally long. */
  lemma RunsAgree(s: string, x: string, t: string, y: string)
    requires s + x == t + y && Ends(x)
    requires forall i :: 0 <= i < |t| ==> NumberChar(t[i])
    ensures |t| <= |s|
  {
    var u := s + x;
    assert |s| < |u| ==> u[|s|] == x[0];
    assert forall i :: 0 <= i < |t| ==> u[i] == t[i];
  }

  lemma NumberUnique(m: int, x: string, n: int, y: string)
    requires Decimal.Of(m) + x == Decimal.Of(n) + y && Ends(x) && Ends(y)
    ensures m == n && x == y
  {
    var s, t := Decimal.Of(m), Decimal.Of(n);
    RunsAgree(s, x, t, y);
    RunsAgree(t, y, s, x);
    assert s == (s + x)[..|s|] && t == (t + y)[..|t|];
    Decimal.OfIsInjective(m, n);
    Collections.Cancel(s, x, y);
  }

  /** JSON text can be read in only one way: what a value is, and where it ends. */
  lemma {:induction false} WriteUnique(a: Json, x: string, b: Json, y: string)
    requires Write(a, x) == Write(b, y) && Ends(x) && Ends(y)
    ensures a == b && x == y
    decreases a, 2
  {
    assert Lead(a) == Lead(b);
    match a
    case Null => Collections.Cancel("null", x, y);
    case Bool(v) => Collections.Cancel(if v then "true" else "false", x, y);
    case Num(n) => NumberUnique(n, x, b.n, y);
    case Str(s) => StringUnique(s, x, b.s, y);
    case Arr(items) =>
      Collections.Cancel(['['], WriteItems(items, x), WriteItems(b.items, y));
      ItemsUnique(items, x, b.items, y);
    case Obj(members) =>
      Collections.Cancel(['{'], WriteMembers(members, x), WriteMembers(b.members, y));
      MembersUnique(members, x, b.members, y);
  }

  lemma {:induction false} ItemsUnique(a: seq<Json>, x: string, b: seq<Json>, y: string)
    requires WriteItems(a, x) == WriteItems(b, y) && Ends(x) && Ends(y)
    ensures a == b && x == y
    decreases a, 1
  {
    if a == [] {
      Collections.Cancel([']'], x, y);
    } else {
      var p, q := WriteItemsTail(a[1..], x), WriteItemsTail(b[1..], y);
      WriteUnique(a[0], p, b[0], q);
      ItemsTailUnique(a[1..], x, b[1..], y);
    }
  }

  lemma {:induction false} ItemsTailUnique(a: seq<Json>, x: string, b: seq<Json>, y: string)
    requires WriteItemsTail(a, x) == WriteItemsTail(b, y) && Ends(x) && Ends(y)
    ensures a == b && x == y
    decreases a, 0
  {
    if a == [] {
      Collections.Cancel([']'], x, y);
    } else {
      var p, q := WriteItemsTail(a[1..], x), WriteItemsTail(b[1..], y);
      Collections.Cancel([','], Write(a[0], p), Write(b[0], q));
      WriteUnique(a[0], p, b[0], q);
      ItemsTailUnique(a[1..], x, b[1..], y);
    }
  }

  lemma {:induction false} MemberUnique(a: Member, x: string, b: Member, y: string)
    requires WriteMember(a, x) == WriteMember(b, y) && Ends(x) && Ends(y)
    ensures a == b && x == y
    decreases a, 3
  {
    StringUnique(a.key, [':'] + Write(a.value, x), b.key, [':'] + Write(b.value, y));
    Collections.Cancel([':'], Write(a.value, x), Write(b.value, y));
    WriteUnique(a.value, x, b.value, y);
  }

  lemma {:induction false} MembersUnique(a: seq<Member>, x: string, b: seq<Member>, y: string)
    requires WriteMembers(a, x) == WriteMembers(b, y) && Ends(x) && Ends(y)
    ensures a == b && x == y
    decreases a, 1
  {
    if a == [] {
      Collections.Cancel(['}'], x, y);
    } else {
      MemberUnique(a[0], WriteMembersTail(a[1..], x), b[0], WriteMembersTail(b[1..], y));
      MembersTailUnique(a[1..], x, b[1..], y);
    }
  }

  lemma {:induction false} MembersTailUnique(a: seq<Member>, x: string, b: seq<Member>, y: string)
    requires WriteMembersTail(a, x) == WriteMembersTail(b, y) && Ends(x) && Ends(y)
    ensures a == b && x == y
    decreases a, 0
  {
    if a == [] {
      Collections.Cancel(['}'], x, y);
    } else {
      var p, q := WriteMembersTail(a[1..], x), WriteMembersTail(b[1..], y);
      Collections.Cancel([','], WriteMember(a[0], p), WriteMember(b[0], q));
      MemberUnique(a[0], p, b[0], q);
      MembersTailUnique(a[1..], x, b[1..], y);
    }
  }

  /** So compact JSON text is injective on all values. */
  lemma DumpsIsInjective(a: Json, b: Json)
    requires Dumps(a) == Dumps(b)
    ensures a == b
  {
    WriteUnique(a, "", b, "");
  }

  /** UTF-8 length of a text. */
  function Utf8Length(s: string): nat {
    if s == "" then 0
    else
      var c := s[0] as int;
      Utf8Length(s[1..]) + if c < 0x80 then 1 else if c < 0x800 then 2 else if c < 0x1_0000 then 3 else 4
  }
}
