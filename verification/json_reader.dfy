/** A reader of JSON as RFC 8259 defines it, and what canonical JSON reads back as. */
module JsonReader {
  import opened CanonicalJson
  import opened Keyed
  import opened Prelude
  import opened Values

  datatype Json =
    | JNull
    | JBool(b: bool)
    | JNumber(text: string)
    | JString(s: string)
    | JArray(items: seq<Json>)
    | JObject(members: seq<(string, Json)>)

  // ----- the grammar -----

  /** `ws` of section 2. */
  function SkipSpace(s: string): (r: string)
    ensures |r| <= |s|
  {
    if s != "" && (s[0] == ' ' || s[0] == '\t' || s[0] == '\n' || s[0] == '\r') then SkipSpace(s[1..]) else s
  }

  function HexValue(c: char): Option<nat> {
    if '0' <= c <= '9' then Some((c - '0') as nat)
    else if 'a' <= c <= 'f' then Some((c - 'a') as nat + 10)
    else if 'A' <= c <= 'F' then Some((c - 'A') as nat + 10)
    else None
  }

  /** Four hexadecimal digits as a character; surrogates are not characters here. */
  function CodeUnit(s: string): Option<char>
    requires |s| == 4
  {
    var a, b, c, d := HexValue(s[0]), HexValue(s[1]), HexValue(s[2]), HexValue(s[3]);
    if a.None? || b.None? || c.None? || d.None? then None
    else
      var n := ((a.value * 16 + b.value) * 16 + c.value) * 16 + d.value;
      if 0xD800 <= n < 0xE000 || n >= 0x1_0000 then None else Some(n as char)
  }

  /** `escape` of section 7, without the backslash: the character and how long the escape is. */
  function Escaped(s: string): Option<(char, nat)>
    requires s != ""
  {
    match s[0]
    case '"' => Some(('"', 1))
    case '\\' => Some(('\\', 1))
    case '/' => Some(('/', 1))
    case 'b' => Some(('\U{0008}', 1))
    case 'f' => Some(('\U{000C}', 1))
    case 'n' => Some(('\n', 1))
    case 'r' => Some(('\r', 1))
    case 't' => Some(('\t', 1))
    case 'u' =>
      if |s| < 5 then None
      else
        var unit := CodeUnit(s[1..5]);
        if unit.Some? then Some((unit.value, 5)) else None
    case _ => None
  }

  function Prepend(c: char, r: Option<(string, string)>): Option<(string, string)> {
    if r.Some? then Some(([c] + r.value.0, r.value.1)) else None
  }

  /** `*char quotation-mark` of section 7, and what follows. */
  function ReadChars(s: string): (r: Option<(string, string)>)
    ensures r.Some? ==> |r.value.1| < |s|
  {
    if s == "" then None
    else if s[0] == '"' then Some(("", s[1..]))
    else if s[0] == '\\' then
      if |s| == 1 then None
      else
        var e := Escaped(s[1..]);
        if e.None? || e.value.1 >= |s| then None else Prepend(e.value.0, ReadChars(s[1 + e.value.1..]))
    else if s[0] < ' ' then None
    else Prepend(s[0], ReadChars(s[1..]))
  }

  predicate NumberSign(c: char) {
    '0' <= c <= '9' || c == '-' || c == '+' || c == '.' || c == 'e' || c == 'E'
  }

  function NumberRun(s: string): (n: nat)
    ensures n <= |s|
  {
    if s != "" && NumberSign(s[0]) then 1 + NumberRun(s[1..]) else 0
  }

  function ReadNumber(s: string): (r: Option<(Json, string)>)
    ensures r.Some? ==> |r.value.1| < |s|
  {
    var n := NumberRun(s);
    if n > 0 && NumberGrammar(s[..n]) then Some((JNumber(s[..n]), s[n..])) else None
  }

  function ReadWord(s: string, word: string, j: Json): (r: Option<(Json, string)>)
    requires word != ""
    ensures r.Some? ==> |r.value.1| < |s|
  {
    if |word| <= |s| && s[..|word|] == word then Some((j, s[|word|..])) else None
  }

  /** `value` of section 3, and what follows. */
  function ReadValue(s: string): (r: Option<(Json, string)>)
    ensures r.Some? ==> |r.value.1| < |s|
    decreases |s|, 0
  {
    var t := SkipSpace(s);
    if t == "" then None
    else if t[0] == 'n' then ReadWord(t, "null", JNull)
    else if t[0] == 't' then ReadWord(t, "true", JBool(true))
    else if t[0] == 'f' then ReadWord(t, "false", JBool(false))
    else if t[0] == '"' then
      var chars := ReadChars(t[1..]);
      if chars.Some? then Some((JString(chars.value.0), chars.value.1)) else None
    else if t[0] == '[' then
      var u := SkipSpace(t[1..]);
      if u != "" && u[0] == ']' then Some((JArray([]), u[1..]))
      else
        var items := ReadItems(t[1..]);
        if items.Some? then Some((JArray(items.value.0), items.value.1)) else None
    else if t[0] == '{' then
      var u := SkipSpace(t[1..]);
      if u != "" && u[0] == '}' then Some((JObject([]), u[1..]))
      else
        var members := ReadMembers(t[1..]);
        if members.Some? then Some((JObject(members.value.0), members.value.1)) else None
    else ReadNumber(t)
  }

  /** `value *( value-separator value ) end-array` of section 5. */
  function ReadItems(s: string): (r: Option<(seq<Json>, string)>)
    ensures r.Some? ==> |r.value.1| < |s|
    decreases |s|, 1
  {
    var first := ReadValue(s);
    if first.None? then None
    else
      var t := SkipSpace(first.value.1);
      if t == "" then None
      else if t[0] == ']' then Some(([first.value.0], t[1..]))
      else if t[0] != ',' then None
      else
        var more := ReadItems(t[1..]);
        if more.Some? then Some(([first.value.0] + more.value.0, more.value.1)) else None
  }

  /** `member *( value-separator member ) end-object` of section 4. */
  function ReadMembers(s: string): (r: Option<(seq<(string, Json)>, string)>)
    ensures r.Some? ==> |r.value.1| < |s|
    decreases |s|, 1
  {
    var first := ReadMember(s);
    if first.None? then None
    else
      var t := SkipSpace(first.value.1);
      if t == "" then None
      else if t[0] == '}' then Some(([first.value.0], t[1..]))
      else if t[0] != ',' then None
      else
        var more := ReadMembers(t[1..]);
        if more.Some? then Some(([first.value.0] + more.value.0, more.value.1)) else None
  }

  /** `string name-separator value` */
  function ReadMember(s: string): (r: Option<((string, Json), string)>)
    ensures r.Some? ==> |r.value.1| < |s|
    decreases |s|, 0
  {
    var t := SkipSpace(s);
    if t == "" || t[0] != '"' then None
    else
      var name := ReadChars(t[1..]);
      if name.None? then None
      else
        var u := SkipSpace(name.value.1);
        if u == "" || u[0] != ':' then None
        else
          var value := ReadValue(u[1..]);
          if value.Some? then Some(((name.value.0, value.value.0), value.value.1)) else None
  }

  /** `JSON-text` of section 2: the one value a text holds. */
  function ReadJson(s: string): Option<Json> {
    var r := ReadValue(s);
    if r.Some? && SkipSpace(r.value.1) == "" then Some(r.value.0) else None
  }

  // ----- what JSON keeps of a value -----

  /** `j` is what JSON keeps of `v`: null for undefined and the text of a date; of an object its
      members that are not undefined, in any order. */
  predicate Means(v: Value, j: Json)
    decreases v, 2
  {
    match v
    case Null => j == JNull
    case Undefined => j == JNull
    case Bool(b) => j == JBool(b)
    case Num(t) => j == JNumber(t)
    case Str(s) => j == JString(s)
    case Date(t) => j == JString(t)
    case Arr(items) => j.JArray? && |j.items| == |items| && forall i :: 0 <= i < |items| ==> Means(items[i], j.items[i])
    case Obj(ms) =>
      && j.JObject? && Distinct(j.members)
      && (forall i :: 0 <= i < |ms| && !ms[i].1.Undefined? ==> Kept(ms[i], j.members))
      && (forall k :: 0 <= k < |j.members| ==> Stands(ms, j.members[k]))
  }

  predicate Kept(m: (string, Value), ns: seq<(string, Json)>)
    decreases m, 1
  {
    exists k :: 0 <= k < |ns| && MemberMeans(m, ns[k])
  }

  predicate Stands(ms: seq<(string, Value)>, n: (string, Json))
    decreases ms, 1
  {
    exists i :: 0 <= i < |ms| && !ms[i].1.Undefined? && MemberMeans(ms[i], n)
  }

  predicate MemberMeans(m: (string, Value), n: (string, Json))
    decreases m, 0
  {
    m.0 == n.0 && Means(m.1, n.1)
  }

  // ----- a printed value is read back -----

  /** No undefined and no dates, as in every canonical value. */
  predicate Printable(v: Value) {
    match v
    case Undefined => false
    case Date(_) => false
    case Arr(items) => forall i :: 0 <= i < |items| ==> Printable(items[i])
    case Obj(ms) => forall i :: 0 <= i < |ms| ==> Printable(ms[i].1)
    case _ => true
  }

  function AsJson(v: Value): Json
    requires Printable(v)
    decreases v, 1
  {
    match v
    case Null => JNull
    case Bool(b) => JBool(b)
    case Num(t) => JNumber(t)
    case Str(s) => JString(s)
    case Arr(items) => JArray(JsonItems(items))
    case Obj(ms) => JObject(JsonMembers(ms))
  }

  function JsonItems(vs: seq<Value>): (r: seq<Json>)
    requires forall i :: 0 <= i < |vs| ==> Printable(vs[i])
    ensures |r| == |vs| && forall i :: 0 <= i < |vs| ==> r[i] == AsJson(vs[i])
    decreases vs, 0
  {
    if vs == [] then [] else [AsJson(vs[0])] + JsonItems(vs[1..])
  }

  function JsonMember(m: (string, Value)): (string, Json)
    requires Printable(m.1)
    decreases m, 0
  {
    (m.0, AsJson(m.1))
  }

  function JsonMembers(ms: seq<(string, Value)>): (r: seq<(string, Json)>)
    requires forall i :: 0 <= i < |ms| ==> Printable(ms[i].1)
    ensures |r| == |ms| && forall i :: 0 <= i < |ms| ==> r[i] == JsonMember(ms[i])
    decreases ms, 0
  {
    if ms == [] then [] else [JsonMember(ms[0])] + JsonMembers(ms[1..])
  }

  lemma HexRead(n: nat)
    requires n < 16
    ensures HexValue(Hex(n)) == Some(n)
  {
  }

  lemma EscapedRead(c: char, u: string)
    requires |EscapeChar(c)| > 1
    ensures var e := EscapeChar(c) + u;
      e[0] == '\\' && e[1..] != "" && Escaped(e[1..]) == Some((c, |EscapeChar(c)| - 1))
  {
    var e := EscapeChar(c) + u;
    if |EscapeChar(c)| == 6 {
      HexRead(c as int / 16);
      HexRead(c as int % 16);
      var unit := e[1..][1..5];
      assert unit[0] == '0' && unit[1] == '0' && unit[2] == Hex(c as int / 16) && unit[3] == Hex(c as int % 16);
      assert c as int == c as int / 16 * 16 + c as int % 16;
    }
  }

  lemma CharRead(c: char, u: string)
    requires u != ""
    ensures ReadChars(EscapeChar(c) + u) == Prepend(c, ReadChars(u))
  {
    var e := EscapeChar(c) + u;
    EscapeCharShape(c);
    assert e[|EscapeChar(c)|..] == u;
    if |EscapeChar(c)| > 1 {
      EscapedRead(c, u);
    } else {
      assert e[0] == c && e[1..] == u;
    }
  }

  lemma {:induction false} CharsRead(s: string, rest: string)
    ensures ReadChars(EscapeAll(s) + "\"" + rest) == Some((s, rest))
  {
    EscapeAllFirst(s, rest);
    if s != "" {
      CharRead(s[0], EscapeAll(s[1..]) + "\"" + rest);
      CharsRead(s[1..], rest);
      assert [s[0]] + s[1..] == s;
    }
  }

  lemma StringRead(s: string, rest: string)
    ensures var t := JsonString(s) + rest; t != "" && t[0] == '"' && ReadChars(t[1..]) == Some((s, rest))
  {
    var t := JsonString(s) + rest;
    Regroup("\"", EscapeAll(s), "\"", rest);
    assert t[1..] == EscapeAll(s) + "\"" + rest;
    CharsRead(s, rest);
  }

  lemma {:induction false} RunRead(t: string, rest: string)
    requires Ends(rest) && forall i :: 0 <= i < |t| ==> NumberChar(t[i])
    ensures NumberRun(t + rest) == |t|
  {
    if t == "" {
      assert t + rest == rest;
    } else {
      assert NumberChar(t[0]);
      assert (t + rest)[1..] == t[1..] + rest;
      assert forall i :: 0 <= i < |t[1..]| ==> t[1..][i] == t[i + 1];
      RunRead(t[1..], rest);
    }
  }

  lemma NumberRead(t: string, rest: string)
    requires NumberText(t) && Ends(rest)
    ensures ReadValue(t + rest) == Some((JNumber(t), rest))
  {
    RunRead(t, rest);
    assert (t + rest)[..|t|] == t && (t + rest)[|t|..] == rest;
    assert (t + rest)[0] == t[0];
  }

  lemma WordRead(word: string, rest: string, j: Json)
    requires word != ""
    ensures ReadWord(word + rest, word, j) == Some((j, rest))
  {
    assert (word + rest)[..|word|] == word && (word + rest)[|word|..] == rest;
  }

  lemma ScalarRead(v: Value, rest: string)
    requires WellFormed(v) && Printable(v) && !v.Arr? && !v.Obj? && Ends(rest)
    ensures ReadValue(Text(v) + rest) == Some((AsJson(v), rest))
  {
    var t := Text(v) + rest;
    match v
    case Null => WordRead("null", rest, JNull); assert t[0] == "null"[0];
    case Bool(b) =>
      WordRead("true", rest, JBool(true));
      WordRead("false", rest, JBool(false));
      assert t[0] == if b then "true"[0] else "false"[0];
    case Num(n) => NumberRead(n, rest);
    case Str(s) => StringRead(s, rest);
  }

  lemma {:induction false} TextRead(v: Value, rest: string)
    requires WellFormed(v) && Printable(v) && Ends(rest)
    ensures ReadValue(Text(v) + rest) == Some((AsJson(v), rest))
    decreases v, 2
  {
    match v
    case Arr(items) =>
      ArrayThenText(items, rest);
      ArrayRead(items, rest);
    case Obj(ms) =>
      ObjectThenText(ms, rest);
      ObjectRead(ms, rest);
    case _ => ScalarRead(v, rest);
  }

  lemma {:induction false} ArrayRead(vs: seq<Value>, rest: string)
    requires forall i :: 0 <= i < |vs| ==> WellFormed(vs[i]) && Printable(vs[i])
    ensures ReadValue(ArrayThen(vs, rest)) == Some((JArray(JsonItems(vs)), rest))
    decreases vs, 1
  {
    var t := ArrayThen(vs, rest);
    if vs == [] {
      assert t[1..] == "]" + rest && ("]" + rest)[1..] == rest;
    } else {
      var u := Text(vs[0]) + ItemsThen(vs[1..], rest);
      assert t[1..] == u;
      TextFirst(vs[0]);
      PlainFirst(vs[0]);
      assert u[0] == Text(vs[0])[0];
      ItemsRead(vs, rest);
    }
  }

  lemma PlainFirst(v: Value)
    requires WellFormed(v) && Printable(v)
    ensures Text(v) != "" && SkipSpace(Text(v)) == Text(v) && Text(v)[0] > ' '
  {
    TextFirst(v);
    if v.Null? || v.Bool? {
      assert "null"[0] == 'n' && "true"[0] == 't' && "false"[0] == 'f';
    }
  }

  lemma LastItem(s: string, j: Json, rest: string)
    requires ReadValue(s) == Some((j, "]" + rest))
    ensures ReadItems(s) == Some(([j], rest))
  {
    assert ("]" + rest)[1..] == rest;
  }

  lemma NextItem(s: string, j: Json, t: string, js: seq<Json>, rest: string)
    requires ReadValue(s) == Some((j, "," + t)) && ReadItems(t) == Some((js, rest))
    ensures ReadItems(s) == Some(([j] + js, rest))
  {
    assert ("," + t)[1..] == t;
  }

  lemma {:induction false} ItemsRead(vs: seq<Value>, rest: string)
    requires vs != [] && forall i :: 0 <= i < |vs| ==> WellFormed(vs[i]) && Printable(vs[i])
    ensures ReadItems(Text(vs[0]) + ItemsThen(vs[1..], rest)) == Some((JsonItems(vs), rest))
    decreases vs, 0
  {
    var s, more := Text(vs[0]) + ItemsThen(vs[1..], rest), vs[1..];
    TextRead(vs[0], ItemsThen(more, rest));
    if more == [] {
      LastItem(s, AsJson(vs[0]), rest);
      assert JsonItems(vs) == [AsJson(vs[0])];
    } else {
      ItemsRead(more, rest);
      NextItem(s, AsJson(vs[0]), Text(more[0]) + ItemsThen(more[1..], rest), JsonItems(more), rest);
    }
  }

  lemma {:induction false} MemberRead(m: (string, Value), rest: string)
    requires WellFormed(m.1) && Printable(m.1) && Ends(rest)
    ensures ReadMember(MemberThen(m, rest)) == Some((JsonMember(m), rest))
    decreases m, 0
  {
    var u := ":" + (Text(m.1) + rest);
    StringRead(m.0, u);
    assert u[1..] == Text(m.1) + rest;
    TextRead(m.1, rest);
  }

  lemma LastMember(s: string, m: (string, Json), rest: string)
    requires ReadMember(s) == Some((m, "}" + rest))
    ensures ReadMembers(s) == Some(([m], rest))
  {
    assert ("}" + rest)[1..] == rest;
  }

  lemma NextMember(s: string, m: (string, Json), t: string, more: seq<(string, Json)>, rest: string)
    requires ReadMember(s) == Some((m, "," + t)) && ReadMembers(t) == Some((more, rest))
    ensures ReadMembers(s) == Some(([m] + more, rest))
  {
    assert ("," + t)[1..] == t;
  }

  lemma {:induction false} MembersRead(ms: seq<(string, Value)>, rest: string)
    requires ms != [] && forall i :: 0 <= i < |ms| ==> WellFormed(ms[i].1) && Printable(ms[i].1)
    ensures ReadMembers(MemberThen(ms[0], MembersThen(ms[1..], rest))) == Some((JsonMembers(ms), rest))
    decreases ms, 0
  {
    var s, more := MemberThen(ms[0], MembersThen(ms[1..], rest)), ms[1..];
    MemberRead(ms[0], MembersThen(more, rest));
    if more == [] {
      LastMember(s, JsonMember(ms[0]), rest);
      assert JsonMembers(ms) == [JsonMember(ms[0])];
    } else {
      MembersRead(more, rest);
      NextMember(s, JsonMember(ms[0]), MemberThen(more[0], MembersThen(more[1..], rest)), JsonMembers(more), rest);
    }
  }

  lemma ObjectOf(body: string, ns: seq<(string, Json)>, rest: string)
    requires body != "" && body[0] == '"' && ReadMembers(body) == Some((ns, rest))
    ensures ReadValue("{" + body) == Some((JObject(ns), rest))
  {
    assert ("{" + body)[1..] == body;
  }

  lemma {:induction false} ObjectRead(ms: seq<(string, Value)>, rest: string)
    requires forall i :: 0 <= i < |ms| ==> WellFormed(ms[i].1) && Printable(ms[i].1)
    ensures ReadValue(ObjectThen(ms, rest)) == Some((JObject(JsonMembers(ms)), rest))
    decreases ms, 1
  {
    var body := ObjectBody(ms, rest);
    if ms == [] {
      assert ("{" + body)[1..] == body && body[1..] == rest;
    } else {
      MembersRead(ms, rest);
      ObjectOf(body, JsonMembers(ms), rest);
    }
  }

  // ----- canonical JSON -----

  lemma {:induction false} CanonicalPrintable(v: Value)
    ensures Printable(Canonical(v))
    decreases v
  {
    match v
    case Arr(items) =>
      forall i | 0 <= i < |items| ensures Printable(OrderedItems(ViewItems(items))[i]) {
        CanonicalPrintable(items[i]);
      }
      assert Canonical(v) == Arr(OrderedItems(ViewItems(items)));
    case Obj(ms) =>
      var kept := CanonicalJson.Kept(ms);
      forall i | 0 <= i < |kept| ensures Printable(kept[i].1) {
        var k := ViewMembersFrom(ms, i);
        CanonicalPrintable(ms[k].1);
      }
      var own := OwnOrder(SortPairs(kept));
      CanonicalPairs(ms);
      forall i | 0 <= i < |own| ensures Printable(own[i].1) {
        assert own[i] in kept;
      }
    case _ =>
  }

  /** A canonical object's members are those kept. */
  lemma CanonicalPairs(ms: seq<(string, Value)>)
    ensures var kept := CanonicalJson.Kept(ms); var own := OwnOrder(SortPairs(kept));
      && Canonical(Obj(ms)) == Obj(own) && Within(own, kept) && Within(kept, own)
  {
    var kept := CanonicalJson.Kept(ms);
    OwnOrderSamePairs(SortPairs(kept));
    SamePairsWithin(OwnOrder(SortPairs(kept)), kept);
    SamePairsWithin(kept, OwnOrder(SortPairs(kept)));
  }

  /** The canonical form means what the value means. */
  lemma {:induction false} CanonicalMeans(v: Value)
    requires WellFormed(v)
    ensures Printable(Canonical(v)) && Means(v, AsJson(Canonical(v)))
    decreases v, 1
  {
    CanonicalPrintable(v);
    match v
    case Arr(items) =>
      forall i | 0 <= i < |items| ensures Means(items[i], JsonItems(OrderedItems(ViewItems(items)))[i]) {
        CanonicalMeans(items[i]);
      }
    case Obj(ms) => ObjectMeans(ms);
    case _ =>
  }

  lemma {:induction false} ObjectMeans(ms: seq<(string, Value)>)
    requires WellFormed(Obj(ms)) && Printable(Canonical(Obj(ms)))
    ensures Means(Obj(ms), AsJson(Canonical(Obj(ms))))
    decreases ms, 0
  {
    var kept := CanonicalJson.Kept(ms);
    var own := OwnOrder(SortPairs(kept));
    CanonicalPairs(ms);
    var ns := JsonMembers(own);
    forall i | 0 <= i < |ms| && !ms[i].1.Undefined? ensures Kept(ms[i], ns) {
      CanonicalMeans(ms[i].1);
      MemberIsKept(ms, kept, own, i);
    }
    forall l | 0 <= l < |ns| ensures Stands(ms, ns[l]) {
      var i := KeptFrom(ms, kept, own, l);
      CanonicalMeans(ms[i].1);
      assert MemberMeans(ms[i], ns[l]);
    }
    ViewWellFormed(Obj(ms));
    OrderedWellFormed(JsonView(Obj(ms)));
    assert Distinct(own);
  }

  lemma MemberIsKept(ms: seq<(string, Value)>, kept: seq<(string, Value)>, own: seq<(string, Value)>, i: nat)
    requires kept == CanonicalJson.Kept(ms) && Within(kept, own) && forall l :: 0 <= l < |own| ==> Printable(own[l].1)
    requires i < |ms| && !ms[i].1.Undefined?
    requires Printable(Canonical(ms[i].1)) ==> Means(ms[i].1, AsJson(Canonical(ms[i].1)))
    ensures Kept(ms[i], JsonMembers(own))
  {
    var k := ViewMembersTo(ms, i);
    assert kept[k] in own;
    var l :| 0 <= l < |own| && own[l] == kept[k];
    assert MemberMeans(ms[i], JsonMembers(own)[l]);
  }

  lemma KeptFrom(ms: seq<(string, Value)>, kept: seq<(string, Value)>, own: seq<(string, Value)>, l: nat)
    returns (i: nat)
    requires kept == CanonicalJson.Kept(ms) && Within(own, kept) && l < |own|
    ensures i < |ms| && !ms[i].1.Undefined? && own[l] == (ms[i].0, Canonical(ms[i].1))
  {
    assert own[l] in kept;
    var k :| 0 <= k < |kept| && kept[k] == own[l];
    i := ViewMembersFrom(ms, k);
  }

  /** Canonical JSON is JSON, and it says what the value says. */
  lemma JsonTextReads(v: Value)
    requires WellFormed(v)
    ensures ReadJson(JsonText(v)).Some? && Means(v, ReadJson(JsonText(v)).value)
  {
    CanonicalPrintable(v);
    ViewWellFormed(v);
    OrderedWellFormed(JsonView(v));
    TextRead(Canonical(v), "");
    assert Text(Canonical(v)) + "" == Text(Canonical(v));
    CanonicalMeans(v);
  }
}
