/** JavaScript values, the stable serialization of diff.ts and the equality built on it. */
module Values {
  import opened Keyed

  /** A finite number is its shortest printing, a valid date its ISO text: both printings
      are injective, so nothing else of the number or the date matters here. */
  datatype Value =
    | Null
    | Undefined
    | Bool(b: bool)
    | Num(text: string)
    | Str(s: string)
    | Date(iso: string)
    | Arr(items: seq<Value>)
    | Obj(members: seq<(string, Value)>)

  predicate NumberChar(c: char) {
    '0' <= c <= '9' || c == '+' || c == '-' || c == '.' || c == 'e'
  }

  predicate IsoChar(c: char) {
    '0' <= c <= '9' || c == '+' || c == '-' || c == '.' || c == ':' || c == 'T' || c == 'Z'
  }

  predicate Digit(c: char) {
    '0' <= c <= '9'
  }

  function DropDigits(s: string): (r: string)
    ensures |r| <= |s|
  {
    if s != "" && Digit(s[0]) then DropDigits(s[1..]) else s
  }

  predicate Exponent(s: string) {
    s == "" ||
    ((s[0] == 'e' || s[0] == 'E') &&
     var digits := if |s| > 1 && (s[1] == '+' || s[1] == '-') then s[2..] else s[1..];
     digits != "" && DropDigits(digits) == "")
  }

  predicate Fraction(s: string) {
    if s != "" && s[0] == '.' then |s| > 1 && Digit(s[1]) && Exponent(DropDigits(s[1..])) else Exponent(s)
  }

  /** `number` of section 6 of RFC 8259. */
  predicate NumberGrammar(t: string) {
    var digits := if t != "" && t[0] == '-' then t[1..] else t;
    digits != "" && Digit(digits[0]) && Fraction(if digits[0] == '0' then digits[1..] else DropDigits(digits))
  }

  predicate NumberText(t: string) {
    && t != "" && (t[0] == '-' || Digit(t[0])) && NumberGrammar(t)
    && forall i :: 0 <= i < |t| ==> NumberChar(t[i])
  }

  predicate IsoText(t: string) {
    && t != "" && t[|t| - 1] == 'Z' && (t[0] == '+' || t[0] == '-' || '0' <= t[0] <= '9')
    && forall i :: 0 <= i < |t| ==> IsoChar(t[i])
  }

  /** Distinct keys other than `__proto__`, numbers and dates in their printed form. */
  predicate WellFormed(v: Value) {
    match v
    case Num(t) => NumberText(t)
    case Date(t) => IsoText(t)
    case Arr(items) => forall i :: 0 <= i < |items| ==> WellFormed(items[i])
    case Obj(ms) =>
      && Distinct(ms)
      && forall i :: 0 <= i < |ms| ==> ms[i].0 != "__proto__" && WellFormed(ms[i].1)
    case _ => true
  }

  /** Equal up to the order of object keys, at every depth. */
  predicate Equiv(a: Value, b: Value)
    decreases a, 1
  {
    match (a, b)
    case (Arr(xs), Arr(ys)) =>
      |xs| == |ys| && forall i :: 0 <= i < |xs| ==> Equiv(xs[i], ys[i])
    case (Obj(ms), Obj(ns)) =>
      && (forall i :: 0 <= i < |ms| ==> HasMatch(ms[i], ns))
      && (forall j :: 0 <= j < |ns| ==> IsMatched(ms, ns[j]))
    case _ => a == b
  }

  /** Some member of `ns` has the key of `m` and an equivalent value. */
  predicate HasMatch(m: (string, Value), ns: seq<(string, Value)>)
    decreases m, 1
  {
    exists j :: 0 <= j < |ns| && SameMember(m, ns[j])
  }

  predicate IsMatched(ms: seq<(string, Value)>, n: (string, Value))
    decreases ms, 0
  {
    exists i :: 0 <= i < |ms| && SameMember(ms[i], n)
  }

  predicate SameMember(m: (string, Value), n: (string, Value))
    decreases m, 0
  {
    m.0 == n.0 && Equiv(m.1, n.1)
  }

  // ----- JSON.stringify on a string -----

  function Hex(n: nat): char
    requires n < 16
  {
    "0123456789abcdef"[n]
  }

  function EscapeChar(c: char): string {
    if c == '"' then "\\\""
    else if c == '\\' then "\\\\"
    else if c == '\U{0008}' then "\\b"
    else if c == '\t' then "\\t"
    else if c == '\n' then "\\n"
    else if c == '\U{000C}' then "\\f"
    else if c == '\r' then "\\r"
    else if c < ' ' then ['\\', 'u', '0', '0', Hex(c as int / 16), Hex(c as int % 16)]
    else [c]
  }

  /** What is escaped, and how: section 7 of RFC 8259 requires quotation mark, backslash and
      control characters; those without a short form get four hexadecimal digits in lower case. */
  lemma EscapeTable(c: char)
    ensures EscapeChar('"') == ['\\', '"'] && EscapeChar('\\') == ['\\', '\\']
    ensures EscapeChar('\U{0008}') == ['\\', 'b'] && EscapeChar('\U{000C}') == ['\\', 'f']
    ensures EscapeChar('\n') == ['\\', 'n'] && EscapeChar('\r') == ['\\', 'r'] && EscapeChar('\t') == ['\\', 't']
    ensures EscapeChar('\U{0000}') == "\\u0000" && EscapeChar('\U{001F}') == "\\u001f"
    ensures ' ' <= c && c != '"' && c != '\\' ==> EscapeChar(c) == [c]
  {
  }

  function EscapeAll(s: string): string {
    if s == "" then "" else EscapeChar(s[0]) + EscapeAll(s[1..])
  }

  function JsonString(s: string): string {
    "\"" + EscapeAll(s) + "\""
  }

  // ----- serialization -----

  function JoinTail(parts: seq<string>): string {
    if parts == [] then "" else "," + parts[0] + JoinTail(parts[1..])
  }

  /** `parts.join(',')` */
  function Join(parts: seq<string>): string {
    if parts == [] then "" else parts[0] + JoinTail(parts[1..])
  }

  function Pair(m: (string, string)): string {
    JsonString(m.0) + ":" + m.1
  }

  function Pairs(ms: seq<(string, string)>): (r: seq<string>)
    ensures |r| == |ms|
  {
    if ms == [] then [] else [Pair(ms[0])] + Pairs(ms[1..])
  }

  /** `stableStringify` */
  function Stable(v: Value): string
    decreases v, 1
  {
    match v
    case Arr(items) => "[" + Join(StableItems(items)) + "]"
    case Obj(ms) => "{" + Join(Pairs(SortPairs(StableMembers(ms)))) + "}"
    case _ => ScalarText(v)
  }

  function StableItems(vs: seq<Value>): (r: seq<string>)
    ensures |r| == |vs|
    decreases vs, 0
  {
    if vs == [] then [] else [Stable(vs[0])] + StableItems(vs[1..])
  }

  function StableMember(m: (string, Value)): (string, string)
    decreases m, 0
  {
    (m.0, Stable(m.1))
  }

  function StableMembers(ms: seq<(string, Value)>): (r: seq<(string, string)>)
    ensures |r| == |ms|
    decreases ms, 0
  {
    if ms == [] then [] else [StableMember(ms[0])] + StableMembers(ms[1..])
  }

  function ScalarText(v: Value): string
    requires !v.Arr? && !v.Obj?
  {
    match v
    case Null => "null"
    case Undefined => "undefined"
    case Bool(b) => if b then "true" else "false"
    case Num(t) => t
    case Str(s) => JsonString(s)
    case Date(t) => t
  }

  predicate IsObject(v: Value) {
    v.Date? || v.Arr? || v.Obj?
  }

  /** `isDeepEqual`.  Identical references only shortcut values that are equal anyway. */
  predicate IsDeepEqual(a: Value, b: Value) {
    if !IsObject(a) && a == b then true
    else if a.Null? || b.Null? || a.Undefined? || b.Undefined? then false
    else if a.Date? && b.Date? then a == b
    else if IsObject(a) && IsObject(b) then Stable(a) == Stable(b)
    else false
  }

  // ----- printing in the order given, and the canonical form -----

  function Text(v: Value): string
    decreases v, 1
  {
    match v
    case Arr(items) => "[" + Join(TextItems(items)) + "]"
    case Obj(ms) => "{" + Join(Pairs(TextMembers(ms))) + "}"
    case _ => ScalarText(v)
  }

  function TextItems(vs: seq<Value>): (r: seq<string>)
    ensures |r| == |vs|
    decreases vs, 0
  {
    if vs == [] then [] else [Text(vs[0])] + TextItems(vs[1..])
  }

  function TextMember(m: (string, Value)): (string, string)
    decreases m, 0
  {
    (m.0, Text(m.1))
  }

  function TextMembers(ms: seq<(string, Value)>): (r: seq<(string, string)>)
    ensures |r| == |ms|
    decreases ms, 0
  {
    if ms == [] then [] else [TextMember(ms[0])] + TextMembers(ms[1..])
  }

  /** Keys sorted at every depth. */
  function Canon(v: Value): Value
    decreases v, 1
  {
    match v
    case Arr(items) => Arr(CanonItems(items))
    case Obj(ms) => Obj(SortPairs(CanonMembers(ms)))
    case _ => v
  }

  function CanonItems(vs: seq<Value>): (r: seq<Value>)
    ensures |r| == |vs|
    ensures forall i :: 0 <= i < |vs| ==> r[i] == Canon(vs[i])
    decreases vs, 0
  {
    if vs == [] then [] else [Canon(vs[0])] + CanonItems(vs[1..])
  }

  function CanonMember(m: (string, Value)): (string, Value)
    decreases m, 0
  {
    (m.0, Canon(m.1))
  }

  function CanonMembers(ms: seq<(string, Value)>): (r: seq<(string, Value)>)
    ensures |r| == |ms|
    ensures forall i :: 0 <= i < |ms| ==> r[i] == CanonMember(ms[i])
    decreases ms, 0
  {
    if ms == [] then [] else [CanonMember(ms[0])] + CanonMembers(ms[1..])
  }

  // ----- stable text is the text of the canonical form -----

  lemma {:induction false} TextMembersIsMap(ms: seq<(string, Value)>)
    ensures TextMembers(ms) == MapValues(Text, ms)
  {
    if ms != [] {
      TextMembersIsMap(ms[1..]);
      assert MapValues(Text, ms)[1..] == MapValues(Text, ms[1..]);
    }
  }

  lemma {:induction false} StableIsText(v: Value)
    ensures Stable(v) == Text(Canon(v))
    decreases v, 1
  {
    match v
    case Arr(items) => StableItemsIsText(items);
    case Obj(ms) =>
      StableMembersIsText(ms);
      TextMembersIsMap(CanonMembers(ms));
      SortMap(Text, CanonMembers(ms));
      TextMembersIsMap(SortPairs(CanonMembers(ms)));
    case _ =>
  }

  lemma {:induction false} StableItemsIsText(vs: seq<Value>)
    ensures StableItems(vs) == TextItems(CanonItems(vs))
    decreases vs, 0
  {
    if vs != [] {
      StableIsText(vs[0]);
      StableItemsIsText(vs[1..]);
      assert CanonItems(vs)[1..] == CanonItems(vs[1..]);
    }
  }

  lemma {:induction false} StableMemberIsText(m: (string, Value))
    ensures StableMember(m) == TextMember(CanonMember(m))
    decreases m, 0
  {
    StableIsText(m.1);
  }

  lemma {:induction false} StableMembersIsText(ms: seq<(string, Value)>)
    ensures StableMembers(ms) == TextMembers(CanonMembers(ms))
    decreases ms, 0
  {
    if ms != [] {
      StableMemberIsText(ms[0]);
      StableMembersIsText(ms[1..]);
      assert CanonMembers(ms)[1..] == CanonMembers(ms[1..]);
    }
  }

  // ----- the text is a prefix code: it can be parsed in only one way -----

  lemma HexIdentifies(m: nat, n: nat)
    requires m < 16 && n < 16 && Hex(m) == Hex(n)
    ensures m == n
  {
  }

  /** How an escaped character is told apart: by its first two characters and, when those are
      a backslash and a `u`, by the last two. */
  lemma EscapeCharShape(c: char)
    ensures var e := EscapeChar(c);
      && (|e| == 1 || |e| == 2 || |e| == 6) && e[0] != '"'
      && (|e| == 1 <==> e[0] != '\\') && (|e| == 1 ==> e == [c])
      && (|e| > 1 ==> (|e| == 6 <==> e[1] == 'u'))
      && (|e| == 6 ==> c < ' ' && e[4] == Hex(c as int / 16) && e[5] == Hex(c as int % 16))
  {
  }

  lemma EscapeCharIdentifies(c: char, d: char)
    requires EscapeChar(c) == EscapeChar(d)
    ensures c == d
  {
    EscapeCharShape(c);
    EscapeCharShape(d);
    if |EscapeChar(c)| == 6 {
      HexIdentifies(c as int / 16, d as int / 16);
      HexIdentifies(c as int % 16, d as int % 16);
      assert c as int == c as int / 16 * 16 + c as int % 16;
      assert d as int == d as int / 16 * 16 + d as int % 16;
    }
  }

  lemma EscapeCharPrefix(c: char, d: char, x: string, y: string)
    requires EscapeChar(c) + x == EscapeChar(d) + y
    ensures c == d && x == y
  {
    var a, b := EscapeChar(c), EscapeChar(d);
    var s, t := a + x, b + y;
    EscapeCharShape(c);
    EscapeCharShape(d);
    assert s[0] == a[0] && t[0] == b[0];
    assert |a| > 1 ==> s[1] == a[1];
    assert |b| > 1 ==> t[1] == b[1];
    assert |a| == |b|;
    assert a == s[..|a|] && b == t[..|b|];
    EscapeCharIdentifies(c, d);
    assert x == s[|a|..] && y == t[|b|..];
  }

  lemma Regroup(a: string, b: string, quote: string, x: string)
    ensures (a + b) + quote + x == a + (b + quote + x)
  {
  }

  lemma EscapeAllFirst(s: string, x: string)
    ensures var u := EscapeAll(s) + "\"" + x;
      && (s == "" ==> u[0] == '"' && u[1..] == x)
      && (s != "" ==> u[0] != '"' && u == EscapeChar(s[0]) + (EscapeAll(s[1..]) + "\"" + x))
  {
    if s != "" {
      var first := EscapeChar(s[0]);
      EscapeCharShape(s[0]);
      Regroup(first, EscapeAll(s[1..]), "\"", x);
      assert (first + (EscapeAll(s[1..]) + "\"" + x))[0] == first[0];
    }
  }

  lemma {:induction false} EscapeAllPrefix(s: string, t: string, x: string, y: string)
    requires EscapeAll(s) + "\"" + x == EscapeAll(t) + "\"" + y
    ensures s == t && x == y
    decreases |s|
  {
    EscapeAllFirst(s, x);
    EscapeAllFirst(t, y);
    if s != "" {
      EscapeCharPrefix(s[0], t[0], EscapeAll(s[1..]) + "\"" + x, EscapeAll(t[1..]) + "\"" + y);
      EscapeAllPrefix(s[1..], t[1..], x, y);
      assert s == [s[0]] + s[1..] && t == [t[0]] + t[1..];
    }
  }

  lemma JsonStringPrefix(s: string, t: string, x: string, y: string)
    requires JsonString(s) + x == JsonString(t) + y
    ensures s == t && x == y
  {
    Regroup("\"", EscapeAll(s), "\"", x);
    Regroup("\"", EscapeAll(t), "\"", y);
    DropFirst('"', '"', EscapeAll(s) + "\"" + x, EscapeAll(t) + "\"" + y);
    EscapeAllPrefix(s, t, x, y);
  }

  predicate Delimiter(c: char) {
    c == ',' || c == ']' || c == '}'
  }

  /** A serialized value is followed by the end of the text or by a delimiter. */
  predicate Ends(x: string) {
    x == "" || Delimiter(x[0])
  }

  predicate Token(t: string) {
    t != "" && forall i :: 0 <= i < |t| ==> !Delimiter(t[i])
  }

  lemma TokenPrefix(s: string, t: string, x: string, y: string)
    requires Token(s) && Token(t) && Ends(x) && Ends(y) && s + x == t + y
    ensures s == t && x == y
  {
    var u, w := s + x, t + y;
    assert |s| < |u| ==> Delimiter(u[|s|]);
    assert |t| < |w| ==> Delimiter(w[|t|]);
    assert forall i :: 0 <= i < |s| ==> !Delimiter(u[i]);
    assert forall i :: 0 <= i < |t| ==> !Delimiter(w[i]);
    assert |s| == |t|;
    assert s == u[..|s|] && t == u[..|t|] && x == u[|s|..] && y == u[|t|..];
  }

  predicate Bare(v: Value) {
    v.Null? || v.Undefined? || v.Bool? || v.Num? || v.Date?
  }

  /** A bare scalar prints as one token that starts like no string, array or object. */
  lemma BareToken(v: Value)
    requires WellFormed(v) && Bare(v)
    ensures Token(Text(v)) && Text(v)[0] != '"' && Text(v)[0] != '[' && Text(v)[0] != '{'
  {
    var t := Text(v);
    forall i | 0 <= i < |t| ensures !Delimiter(t[i]) {
      assert v.Num? ==> NumberChar(t[i]);
      assert v.Date? ==> IsoChar(t[i]);
    }
  }

  lemma BareTokenIdentifies(a: Value, b: Value)
    requires WellFormed(a) && WellFormed(b) && Bare(a) && Bare(b) && Text(a) == Text(b)
    ensures a == b
  {
    var t := Text(a);
    assert a.Num? || b.Num? ==> NumberChar(t[|t| - 1]);
    assert |"null"| == 4 && |"undefined"| == 9;
    assert "null"[0] == 'n' && "undefined"[0] == 'u' && "true"[0] == 't' && "false"[0] == 'f';
  }

  lemma TextFirst(v: Value)
    requires WellFormed(v)
    ensures Text(v) != "" && !Delimiter(Text(v)[0])
    ensures (v.Str? <==> Text(v)[0] == '"') && (v.Arr? <==> Text(v)[0] == '[') && (v.Obj? <==> Text(v)[0] == '{')
  {
    if Bare(v) { BareToken(v); }
  }

  predicate AllWellFormed(vs: seq<Value>) {
    forall i :: 0 <= i < |vs| ==> WellFormed(vs[i])
  }

  predicate MembersWellFormed(ms: seq<(string, Value)>) {
    forall i :: 0 <= i < |ms| ==> WellFormed(ms[i].1)
  }

  /** What is left to print once some items are out, followed by `rest`. */
  function ItemsThen(vs: seq<Value>, rest: string): (r: string)
    ensures Ends(r) && r != ""
  {
    if vs == [] then "]" + rest else "," + (Text(vs[0]) + ItemsThen(vs[1..], rest))
  }

  function MemberThen(m: (string, Value), rest: string): (r: string)
    ensures r != "" && r[0] == '"'
  {
    JsonString(m.0) + (":" + (Text(m.1) + rest))
  }

  function MembersThen(ms: seq<(string, Value)>, rest: string): (r: string)
    ensures Ends(r) && r != ""
  {
    if ms == [] then "}" + rest else "," + MemberThen(ms[0], MembersThen(ms[1..], rest))
  }

  function ArrayThen(vs: seq<Value>, rest: string): string {
    "[" + if vs == [] then "]" + rest else Text(vs[0]) + ItemsThen(vs[1..], rest)
  }

  function ObjectBody(ms: seq<(string, Value)>, rest: string): (r: string)
    ensures r != "" && r[0] == if ms == [] then '}' else '"'
  {
    if ms == [] then "}" + rest else MemberThen(ms[0], MembersThen(ms[1..], rest))
  }

  function ObjectThen(ms: seq<(string, Value)>, rest: string): string {
    "{" + ObjectBody(ms, rest)
  }

  lemma {:induction false} ItemsThenText(vs: seq<Value>, rest: string)
    ensures JoinTail(TextItems(vs)) + ("]" + rest) == ItemsThen(vs, rest)
  {
    if vs != [] {
      ItemsThenText(vs[1..], rest);
      CommaThen(Text(vs[0]), JoinTail(TextItems(vs[1..])), "]" + rest);
    }
  }

  lemma CommaThen(first: string, more: string, rest: string)
    ensures ("," + first + more) + rest == "," + (first + (more + rest))
  {
  }

  lemma {:induction false} MembersThenText(ms: seq<(string, Value)>, rest: string)
    ensures JoinTail(Pairs(TextMembers(ms))) + ("}" + rest) == MembersThen(ms, rest)
  {
    if ms != [] {
      MembersThenText(ms[1..], rest);
      PairThen(ms[0], JoinTail(Pairs(TextMembers(ms[1..]))), "}" + rest);
    }
  }

  lemma PairThen(m: (string, Value), more: string, rest: string)
    ensures ("," + Pair(TextMember(m)) + more) + rest == "," + MemberThen(m, more + rest)
    ensures (Pair(TextMember(m)) + more) + rest == MemberThen(m, more + rest)
  {
  }

  lemma ArrayThenText(vs: seq<Value>, rest: string)
    ensures Text(Arr(vs)) + rest == ArrayThen(vs, rest)
  {
    if vs != [] { ItemsThenText(vs[1..], rest); }
  }

  lemma ObjectThenText(ms: seq<(string, Value)>, rest: string)
    ensures Text(Obj(ms)) + rest == ObjectThen(ms, rest)
  {
    if ms != [] {
      MembersThenText(ms[1..], rest);
      PairThen(ms[0], JoinTail(Pairs(TextMembers(ms[1..]))), "}" + rest);
    }
  }

  lemma DropFirst(c: char, d: char, s: string, t: string)
    requires [c] + s == [d] + t
    ensures c == d && s == t
  {
    assert s == ([c] + s)[1..] && t == ([d] + t)[1..];
    assert ([c] + s)[0] == c && ([d] + t)[0] == d;
  }

  lemma {:induction false} TextPrefix(a: Value, b: Value, x: string, y: string)
    requires WellFormed(a) && WellFormed(b) && Ends(x) && Ends(y)
    requires Text(a) + x == Text(b) + y
    ensures a == b && x == y
    decreases a, 1
  {
    TextFirst(a);
    TextFirst(b);
    assert (Text(a) + x)[0] == Text(a)[0] && (Text(b) + y)[0] == Text(b)[0];
    match a
    case Str(s) => JsonStringPrefix(s, b.s, x, y);
    case Arr(items) =>
      ArrayThenText(items, x);
      ArrayThenText(b.items, y);
      ArrayPrefix(items, b.items, x, y);
    case Obj(ms) =>
      ObjectThenText(ms, x);
      ObjectThenText(b.members, y);
      ObjectPrefix(ms, b.members, x, y);
    case _ =>
      BareToken(a);
      BareToken(b);
      TokenPrefix(Text(a), Text(b), x, y);
      BareTokenIdentifies(a, b);
  }

  lemma {:induction false} ArrayPrefix(vs: seq<Value>, ws: seq<Value>, x: string, y: string)
    requires AllWellFormed(vs) && AllWellFormed(ws) && ArrayThen(vs, x) == ArrayThen(ws, y)
    ensures vs == ws && x == y
    decreases vs, 0
  {
    var u := if vs == [] then "]" + x else Text(vs[0]) + ItemsThen(vs[1..], x);
    var w := if ws == [] then "]" + y else Text(ws[0]) + ItemsThen(ws[1..], y);
    DropFirst('[', '[', u, w);
    if vs != [] { TextFirst(vs[0]); }
    if ws != [] { TextFirst(ws[0]); }
    assert vs == [] <==> u[0] == ']';
    assert ws == [] <==> w[0] == ']';
    if vs == [] {
      DropFirst(']', ']', x, y);
    } else {
      TextPrefix(vs[0], ws[0], ItemsThen(vs[1..], x), ItemsThen(ws[1..], y));
      ItemsPrefix(vs[1..], ws[1..], x, y);
      assert vs == [vs[0]] + vs[1..] && ws == [ws[0]] + ws[1..];
    }
  }

  lemma {:induction false} ItemsPrefix(vs: seq<Value>, ws: seq<Value>, x: string, y: string)
    requires AllWellFormed(vs) && AllWellFormed(ws) && ItemsThen(vs, x) == ItemsThen(ws, y)
    ensures vs == ws && x == y
    decreases vs, 0
  {
    assert ItemsThen(vs, x)[0] == if vs == [] then ']' else ',';
    assert ItemsThen(ws, y)[0] == if ws == [] then ']' else ',';
    if vs == [] {
      DropFirst(']', ']', x, y);
    } else {
      DropFirst(',', ',', Text(vs[0]) + ItemsThen(vs[1..], x), Text(ws[0]) + ItemsThen(ws[1..], y));
      TextPrefix(vs[0], ws[0], ItemsThen(vs[1..], x), ItemsThen(ws[1..], y));
      ItemsPrefix(vs[1..], ws[1..], x, y);
      assert vs == [vs[0]] + vs[1..] && ws == [ws[0]] + ws[1..];
    }
  }

  lemma {:induction false} MemberPrefix(m: (string, Value), n: (string, Value), x: string, y: string)
    requires WellFormed(m.1) && WellFormed(n.1) && Ends(x) && Ends(y) && MemberThen(m, x) == MemberThen(n, y)
    ensures m == n && x == y
    decreases m, 0
  {
    JsonStringPrefix(m.0, n.0, ":" + (Text(m.1) + x), ":" + (Text(n.1) + y));
    DropFirst(':', ':', Text(m.1) + x, Text(n.1) + y);
    TextPrefix(m.1, n.1, x, y);
  }

  lemma {:induction false} ObjectPrefix(ms: seq<(string, Value)>, ns: seq<(string, Value)>, x: string, y: string)
    requires MembersWellFormed(ms) && MembersWellFormed(ns) && ObjectThen(ms, x) == ObjectThen(ns, y)
    ensures ms == ns && x == y
    decreases ms, 0
  {
    DropFirst('{', '{', ObjectBody(ms, x), ObjectBody(ns, y));
    assert ms == [] <==> ns == [];
    if ms == [] {
      DropFirst('}', '}', x, y);
    } else {
      MemberPrefix(ms[0], ns[0], MembersThen(ms[1..], x), MembersThen(ns[1..], y));
      MembersPrefix(ms[1..], ns[1..], x, y);
      assert ms == [ms[0]] + ms[1..] && ns == [ns[0]] + ns[1..];
    }
  }

  lemma {:induction false} MembersPrefix(ms: seq<(string, Value)>, ns: seq<(string, Value)>, x: string, y: string)
    requires MembersWellFormed(ms) && MembersWellFormed(ns) && MembersThen(ms, x) == MembersThen(ns, y)
    ensures ms == ns && x == y
    decreases ms, 0
  {
    assert MembersThen(ms, x)[0] == if ms == [] then '}' else ',';
    assert MembersThen(ns, y)[0] == if ns == [] then '}' else ',';
    if ms == [] {
      DropFirst('}', '}', x, y);
    } else {
      DropFirst(',', ',', MemberThen(ms[0], MembersThen(ms[1..], x)), MemberThen(ns[0], MembersThen(ns[1..], y)));
      MemberPrefix(ms[0], ns[0], MembersThen(ms[1..], x), MembersThen(ns[1..], y));
      MembersPrefix(ms[1..], ns[1..], x, y);
      assert ms == [ms[0]] + ms[1..] && ns == [ns[0]] + ns[1..];
    }
  }

  // ----- the canonical form identifies exactly the equivalent values -----

  lemma CanonDistinct(ms: seq<(string, Value)>)
    requires Distinct(ms)
    ensures Distinct(CanonMembers(ms))
  {
  }

  lemma {:induction false} CanonMeaning(a: Value, b: Value)
    requires WellFormed(a) && WellFormed(b)
    ensures Canon(a) == Canon(b) <==> Equiv(a, b)
    decreases a
  {
    match (a, b)
    case (Arr(xs), Arr(ys)) =>
      forall i | 0 <= i < |xs| && 0 <= i < |ys|
        ensures CanonItems(xs)[i] == CanonItems(ys)[i] <==> Equiv(xs[i], ys[i])
      {
        CanonMeaning(xs[i], ys[i]);
      }
    case (Obj(ms), Obj(ns)) =>
      forall i, j | 0 <= i < |ms| && 0 <= j < |ns|
        ensures CanonMembers(ms)[i] == CanonMembers(ns)[j] <==> SameMember(ms[i], ns[j])
      {
        CanonMeaning(ms[i].1, ns[j].1);
      }
      CanonDistinct(ms);
      CanonDistinct(ns);
      SortPairsAgree(CanonMembers(ms), CanonMembers(ns));
      MembersWithin(ms, ns, CanonMembers(ms), CanonMembers(ns));
    case _ =>
  }

  lemma MatchIsMembership(m: (string, Value), c: (string, Value), ns: seq<(string, Value)>, cn: seq<(string, Value)>)
    requires |ns| == |cn| && forall j :: 0 <= j < |ns| ==> (c == cn[j] <==> SameMember(m, ns[j]))
    ensures HasMatch(m, ns) <==> c in cn
  {
    if HasMatch(m, ns) {
      var j :| 0 <= j < |ns| && SameMember(m, ns[j]);
      assert cn[j] == c;
    }
  }

  lemma MatchedIsMembership(ms: seq<(string, Value)>, cm: seq<(string, Value)>, n: (string, Value), c: (string, Value))
    requires |ms| == |cm| && forall i :: 0 <= i < |ms| ==> (cm[i] == c <==> SameMember(ms[i], n))
    ensures IsMatched(ms, n) <==> c in cm
  {
    if IsMatched(ms, n) {
      var i :| 0 <= i < |ms| && SameMember(ms[i], n);
      assert cm[i] == c;
    }
  }

  lemma MembersWithin(
    ms: seq<(string, Value)>, ns: seq<(string, Value)>, cm: seq<(string, Value)>, cn: seq<(string, Value)>)
    requires |ms| == |cm| && |ns| == |cn|
    requires forall i, j :: 0 <= i < |ms| && 0 <= j < |ns| ==> (cm[i] == cn[j] <==> SameMember(ms[i], ns[j]))
    ensures Equiv(Obj(ms), Obj(ns)) <==> Within(cm, cn) && Within(cn, cm)
  {
    forall i | 0 <= i < |ms| ensures cm[i] in cn <==> HasMatch(ms[i], ns) {
      MatchIsMembership(ms[i], cm[i], ns, cn);
    }
    forall j | 0 <= j < |ns| ensures cn[j] in cm <==> IsMatched(ms, ns[j]) {
      MatchedIsMembership(ms, cm, ns[j], cn[j]);
    }
  }

  lemma {:induction false} CanonWellFormed(v: Value)
    requires WellFormed(v)
    ensures WellFormed(Canon(v))
    decreases v
  {
    match v
    case Arr(items) =>
      forall i | 0 <= i < |items| ensures WellFormed(CanonItems(items)[i]) {
        CanonWellFormed(items[i]);
      }
    case Obj(ms) =>
      var cm := CanonMembers(ms);
      forall i | 0 <= i < |ms| ensures cm[i].0 != "__proto__" && WellFormed(cm[i].1) {
        CanonWellFormed(ms[i].1);
      }
      CanonDistinct(ms);
      SortPairsDistinct(cm);
      SamePairsWithin(SortPairs(cm), cm);
      forall i | 0 <= i < |SortPairs(cm)|
        ensures SortPairs(cm)[i].0 != "__proto__" && WellFormed(SortPairs(cm)[i].1)
      {
        assert SortPairs(cm)[i] in cm;
      }
    case _ =>
  }

  /** Equal stable text means equal up to key order, and conversely. */
  lemma StableMeaning(a: Value, b: Value)
    requires WellFormed(a) && WellFormed(b)
    ensures Stable(a) == Stable(b) <==> Equiv(a, b)
  {
    StableIsText(a);
    StableIsText(b);
    CanonMeaning(a, b);
    if Stable(a) == Stable(b) {
      CanonWellFormed(a);
      CanonWellFormed(b);
      assert Text(Canon(a)) + "" == Text(Canon(b)) + "";
      TextPrefix(Canon(a), Canon(b), "", "");
    }
  }

  /** `isDeepEqual` is structural equality up to key order. */
  lemma DeepEqualMeaning(a: Value, b: Value)
    requires WellFormed(a) && WellFormed(b)
    ensures IsDeepEqual(a, b) <==> Equiv(a, b)
  {
    if IsObject(a) && IsObject(b) {
      StableMeaning(a, b);
    }
  }

  /** So it is an equivalence relation. */
  lemma DeepEqualEquivalence(a: Value, b: Value, c: Value)
    requires WellFormed(a) && WellFormed(b) && WellFormed(c)
    ensures IsDeepEqual(a, a)
    ensures IsDeepEqual(a, b) ==> IsDeepEqual(b, a)
    ensures IsDeepEqual(a, b) && IsDeepEqual(b, c) ==> IsDeepEqual(a, c)
  {
    DeepEqualMeaning(a, a);
    DeepEqualMeaning(a, b);
    DeepEqualMeaning(b, a);
    DeepEqualMeaning(b, c);
    DeepEqualMeaning(a, c);
    CanonMeaning(a, a);
    CanonMeaning(a, b);
    CanonMeaning(b, a);
    CanonMeaning(b, c);
    CanonMeaning(a, c);
  }
}
