/** The opaque cursors that name a row key, for both databases. */
module Cursor {
  import opened Base64Url
  import opened Calendar
  import opened Keyed
  import opened Keys
  import opened Prelude

  /** What a cursor holds: a timestamp's text and a lower-case uuid. */
  datatype Parts = Parts(ts: string, id: string)

  // ----- fixed-width texts -----

  predicate DecimalDigit(c: char) {
    '0' <= c <= '9'
  }

  predicate HexDigit(c: char) {
    '0' <= c <= '9' || 'a' <= c <= 'f'
  }

  /** A template's `#` stands for a decimal digit, `*` for a hexadecimal one, the rest for itself. */
  predicate FitsChar(c: char, pattern: char) {
    if pattern == '#' then DecimalDigit(c) else if pattern == '*' then HexDigit(c) else c == pattern
  }

  predicate Fits(s: string, template: string) {
    |s| == |template| && forall i :: 0 <= i < |s| ==> FitsChar(s[i], template[i])
  }

  predicate DigitsExcept(s: string, others: set<nat>) {
    forall i: nat :: i < |s| && i !in others ==> '0' <= s[i] <= '9'
  }

  function MicroTemplate(): string {
    "####-##-##T##:##:##.######Z"
  }

  function SqlServerTemplate(): string {
    "####-##-##T##:##:##.#######Z"
  }

  function UuidTemplate(): string {
    "********-****-****-****-************"
  }

  /** `YYYY-MM-DDThh:mm:ss.ffffffZ` */
  lemma MicroShape(s: string)
    ensures Fits(s, MicroTemplate()) <==>
      && |s| == 27 && s[4] == '-' && s[7] == '-' && s[10] == 'T' && s[13] == ':' && s[16] == ':' && s[19] == '.'
      && s[26] == 'Z' && DigitsExcept(s, {4, 7, 10, 13, 16, 19, 26})
  {
    var t := MicroTemplate();
    assert |t| == 27 && t[4] == '-' && t[7] == '-' && t[10] == 'T';
    assert t[13] == ':' && t[16] == ':' && t[19] == '.' && t[26] == 'Z';
    forall i: nat | i < 27 && i !in {4, 7, 10, 13, 16, 19, 26} ensures t[i] == '#' {}
    if Fits(s, t) {
      forall i: nat | i < |s| ensures FitsChar(s[i], t[i]) {}
    }
  }

  /** The same with seven digits after the point. */
  lemma SqlServerShape(s: string)
    ensures Fits(s, SqlServerTemplate()) <==>
      && |s| == 28 && s[4] == '-' && s[7] == '-' && s[10] == 'T' && s[13] == ':' && s[16] == ':' && s[19] == '.'
      && s[27] == 'Z' && DigitsExcept(s, {4, 7, 10, 13, 16, 19, 27})
  {
    var t := SqlServerTemplate();
    assert |t| == 28 && t[4] == '-' && t[7] == '-' && t[10] == 'T';
    assert t[13] == ':' && t[16] == ':' && t[19] == '.' && t[27] == 'Z';
    forall i: nat | i < 28 && i !in {4, 7, 10, 13, 16, 19, 27} ensures t[i] == '#' {}
    if Fits(s, t) {
      forall i: nat | i < |s| ensures FitsChar(s[i], t[i]) {}
    }
  }

  /** 32 hexadecimal digits in lower case, in groups of 8, 4, 4, 4 and 12. */
  lemma UuidShape(s: string)
    ensures Fits(s, UuidTemplate()) <==>
      && |s| == 36
      && forall i :: 0 <= i < 36 ==>
           if i == 8 || i == 13 || i == 18 || i == 23 then s[i] == '-' else '0' <= s[i] <= '9' || 'a' <= s[i] <= 'f'
  {
    var t := UuidTemplate();
    forall i | 0 <= i < 36 ensures t[i] == if i == 8 || i == 13 || i == 18 || i == 23 then '-' else '*' {}
    if Fits(s, t) {
      forall i | 0 <= i < |s| ensures FitsChar(s[i], t[i]) {}
    }
  }

  // ----- ASCII text and bytes -----

  predicate Ascii(s: string) {
    forall i :: 0 <= i < |s| ==> s[i] < 128 as char
  }

  function Bytes(s: string): (r: seq<Byte>)
    requires Ascii(s)
    ensures |r| == |s| && forall i :: 0 <= i < |s| ==> r[i] == s[i] as nat
  {
    seq(|s|, i requires 0 <= i < |s| => s[i] as nat)
  }

  /** UTF-8 decoding, as far as cursors go: a byte outside ASCII gives a character outside
      ASCII, and every text with one is refused. */
  function Utf8(bytes: seq<Byte>): (s: string)
    ensures |s| == |bytes|
    ensures forall i :: 0 <= i < |s| ==> s[i] == if bytes[i] < 128 then bytes[i] as char else '\U{FFFD}'
  {
    seq(|bytes|, i requires 0 <= i < |bytes| => if bytes[i] < 128 then bytes[i] as char else '\U{FFFD}')
  }

  lemma BytesOfText(bytes: seq<Byte>, s: string)
    requires Ascii(s)
    ensures Utf8(bytes) == s <==> bytes == Bytes(s)
  {
    if Utf8(bytes) == s {
      forall i | 0 <= i < |s| ensures bytes[i] == Bytes(s)[i] {
        assert Utf8(bytes)[i] == s[i];
      }
    }
  }

  function LowerChar(c: char): char {
    if 'A' <= c <= 'Z' then c + 32 as char else c
  }

  /** `toLowerCase`; no character outside ASCII becomes a hexadecimal digit. */
  function Lower(s: string): (r: string)
    ensures |r| == |s| && forall i :: 0 <= i < |s| ==> r[i] == LowerChar(s[i])
  {
    seq(|s|, i requires 0 <= i < |s| => LowerChar(s[i]))
  }

  /** Capital letters of ASCII become small, nothing else changes. */
  lemma LowerMeaning(s: string, i: nat)
    requires i < |s|
    ensures 'A' <= s[i] <= 'Z' ==> Lower(s)[i] as int - 'a' as int == s[i] as int - 'A' as int
    ensures !('A' <= s[i] <= 'Z') ==> Lower(s)[i] == s[i]
  {
  }

  function Split(s: string): (r: seq<string>)
    ensures r != []
  {
    if s == "" then [""]
    else if s[0] == '|' then [""] + Split(s[1..])
    else
      var rest := Split(s[1..]);
      [[s[0]] + rest[0]] + rest[1..]
  }

  predicate BarFree(s: string) {
    forall i :: 0 <= i < |s| ==> s[i] != '|'
  }

  lemma {:induction false} SplitLast(s: string)
    requires BarFree(s)
    ensures Split(s) == [s]
  {
    if s != "" {
      assert forall i :: 0 <= i < |s[1..]| ==> s[1..][i] == s[i + 1];
      SplitLast(s[1..]);
      assert [s[0]] + s[1..] == s;
    }
  }

  lemma {:induction false} SplitFirst(s: string, rest: string)
    requires BarFree(s)
    ensures Split(s + ("|" + rest)) == [s] + Split(rest)
    decreases |s|
  {
    var t := s + ("|" + rest);
    if s == "" {
      assert t == "|" + rest && t[1..] == rest;
    } else {
      assert forall i :: 0 <= i < |s[1..]| ==> s[1..][i] == s[i + 1];
      assert t[1..] == s[1..] + ("|" + rest);
      SplitFirst(s[1..], rest);
      assert [s[0]] + s[1..] == s;
    }
  }

  lemma {:induction false} SplitIsSeparated(s: string)
    ensures forall i :: 0 <= i < |Split(s)| ==> BarFree(Split(s)[i])
    ensures s == Joined(Split(s))
  {
    if s != "" {
      SplitIsSeparated(s[1..]);
      var rest := Split(s[1..]);
      if s[0] == '|' {
        assert Split(s)[1..] == rest;
      } else {
        assert Split(s)[1..] == rest[1..];
        assert [s[0]] + s[1..] == s;
      }
    }
  }

  function Joined(parts: seq<string>): string
    requires parts != []
  {
    if |parts| == 1 then parts[0] else parts[0] + ("|" + Joined(parts[1..]))
  }

  /** `${version}|${ts}|${id}` */
  function Payload(version: string, p: Parts): string {
    version + ("|" + (p.ts + ("|" + p.id)))
  }

  /** Three parts come apart exactly as they were put together. */
  lemma PayloadSplits(s: string, version: string, p: Parts)
    requires BarFree(version) && BarFree(p.ts) && BarFree(p.id)
    ensures Split(s) == [version, p.ts, p.id] <==> s == Payload(version, p)
  {
    if s == Payload(version, p) {
      SplitFirst(version, p.ts + ("|" + p.id));
      SplitFirst(p.ts, p.id);
      SplitLast(p.id);
    }
    if Split(s) == [version, p.ts, p.id] {
      SplitIsSeparated(s);
      assert [version, p.ts, p.id][1..] == [p.ts, p.id] && [p.ts, p.id][1..] == [p.id];
      assert Joined([p.ts, p.id]) == p.ts + ("|" + Joined([p.id]));
      assert Joined([version, p.ts, p.id]) == version + ("|" + Joined([p.ts, p.id]));
    }
  }

  lemma FitsPlain(s: string, template: string)
    requires Fits(s, template) && Ascii(template) && BarFree(template)
    ensures Ascii(s) && BarFree(s)
  {
    forall i | 0 <= i < |s| ensures s[i] < 128 as char && s[i] != '|' {
      assert FitsChar(s[i], template[i]);
    }
  }

  lemma TemplatesArePlain()
    ensures Ascii(MicroTemplate()) && BarFree(MicroTemplate())
    ensures Ascii(SqlServerTemplate()) && BarFree(SqlServerTemplate())
    ensures Ascii(UuidTemplate()) && BarFree(UuidTemplate())
  {
  }

  lemma PartsArePlain(p: Parts)
    requires (Fits(p.ts, MicroTemplate()) || Fits(p.ts, SqlServerTemplate())) && Fits(p.id, UuidTemplate())
    ensures Ascii(p.ts) && BarFree(p.ts) && Ascii(p.id) && BarFree(p.id)
  {
    TemplatesArePlain();
    FitsPlain(p.id, UuidTemplate());
    if Fits(p.ts, MicroTemplate()) {
      FitsPlain(p.ts, MicroTemplate());
    } else {
      FitsPlain(p.ts, SqlServerTemplate());
    }
  }

  predicate PlainParts(p: Parts) {
    Ascii(p.ts) && BarFree(p.ts) && Ascii(p.id) && BarFree(p.id)
  }

  lemma LowerFits(id: string)
    requires Fits(id, UuidTemplate())
    ensures Lower(id) == id
  {
    forall i | 0 <= i < |id| ensures LowerChar(id[i]) == id[i] {
      assert FitsChar(id[i], UuidTemplate()[i]);
      assert UuidTemplate()[i] == '*' || UuidTemplate()[i] == '-';
    }
  }

  // ----- PostgreSQL -----

  predicate Wellformed(p: Parts) {
    Fits(p.ts, MicroTemplate()) && Fits(p.id, UuidTemplate())
  }

  function PayloadCursor(version: string, p: Parts): string
    requires Ascii(version) && PlainParts(p)
  {
    Encode(Bytes(Payload(version, p)))
  }

  function V1(): string {
    "v1"
  }

  function Mssql1(): string {
    "mssql1"
  }

  /** `encodeAuditCursor` */
  function EncodeCursor(ts: string, id: string): Result<string, ()> {
    var p := Parts(ts, Lower(id));
    if !Wellformed(p) then Failed(())
    else
      PartsArePlain(p);
      Ok(PayloadCursor(V1(), p))
  }

  /** `decodeAuditCursor`; the base64 decoder is lenient. */
  function DecodeCursor(cursor: string): Result<Parts, ()> {
    var parts := Split(Utf8(Decode(Significant(cursor))));
    if |parts| != 3 then Failed(())
    else
      var p := Parts(parts[1], Lower(parts[2]));
      if parts[0] != V1() || !Wellformed(p) || parts[2] != p.id then Failed(())
      else Ok(p)
  }

  lemma DecodeCursorMeaning(cursor: string, p: Parts)
    requires PlainParts(p)
    ensures DecodeCursor(cursor) == Ok(p) <==>
      Wellformed(p) && Utf8(Decode(Significant(cursor))) == Payload(V1(), p)
  {
    var s := Utf8(Decode(Significant(cursor)));
    PayloadSplits(s, V1(), p);
    if Wellformed(p) { LowerFits(p.id); }
    var parts := Split(s);
    if DecodeCursor(cursor) == Ok(p) {
      assert parts == [V1(), p.ts, p.id];
    }
  }

  lemma PayloadText(version: string, p: Parts)
    ensures Payload(version, p) == version + "|" + p.ts + "|" + p.id
  {
    var tail := "|" + p.id;
    assert version + "|" + p.ts + "|" + p.id == (version + "|" + p.ts) + tail;
    assert (version + "|" + p.ts) + tail == version + ("|" + (p.ts + tail));
  }

  lemma PayloadComesBack(version: string, p: Parts)
    requires Ascii(version) && PlainParts(p)
    ensures Utf8(Decode(PayloadCursor(version, p))) == Payload(version, p)
    ensures Significant(PayloadCursor(version, p)) == PayloadCursor(version, p)
  {
    var bytes := Bytes(Payload(version, p));
    DecodeEncode(bytes);
    BytesOfText(bytes, Payload(version, p));
    SignificantAlphabet(Encode(bytes));
  }

  /** Round trip: what was encoded decodes to the timestamp and the lower-cased id; only
      well-formed parts are encoded. */
  lemma CursorRoundTrip(ts: string, id: string)
    ensures EncodeCursor(ts, id).Ok? <==> Wellformed(Parts(ts, Lower(id)))
    ensures EncodeCursor(ts, id).Ok? ==> DecodeCursor(EncodeCursor(ts, id).value) == Ok(Parts(ts, Lower(id)))
    ensures EncodeCursor(ts, id).Ok? ==>
      var cursor := EncodeCursor(ts, id).value;
      AllInAlphabet(cursor) && Utf8(Decode(cursor)) == "v1" + "|" + ts + "|" + Lower(id)
  {
    var p := Parts(ts, Lower(id));
    if Wellformed(p) {
      PayloadText(V1(), p);
      PartsArePlain(p);
      PayloadComesBack(V1(), p);
      DecodeCursorMeaning(EncodeCursor(ts, id).value, p);
    }
  }

  /** Whatever text is accepted, a freshly encoded cursor stands for the same key. */
  lemma AcceptedCursorIsEncodable(cursor: string)
    requires DecodeCursor(cursor).Ok?
    ensures var p := DecodeCursor(cursor).value;
      EncodeCursor(p.ts, p.id).Ok? && DecodeCursor(EncodeCursor(p.ts, p.id).value) == Ok(p)
  {
    var p := DecodeCursor(cursor).value;
    LowerFits(p.id);
    CursorRoundTrip(p.ts, p.id);
  }

  // ----- SQL Server -----

  function DecimalValue(c: char): nat {
    if DecimalDigit(c) then (c - '0') as nat else 0
  }

  function TwoDigits(s: string, i: nat): nat
    requires i + 1 < |s|
  {
    DecimalValue(s[i]) * 10 + DecimalValue(s[i + 1])
  }

  /** `validTimestamp`: seven fractional digits and a real date and time of a year after 0. */
  predicate ValidTimestamp(s: string) {
    && |s| == 28 && Fits(s, SqlServerTemplate())
    && RealDate(Date(TwoDigits(s, 0) * 100 + TwoDigits(s, 2), TwoDigits(s, 5), TwoDigits(s, 8)))
    && TwoDigits(s, 11) < 24 && TwoDigits(s, 14) < 60 && TwoDigits(s, 17) < 60
  }

  function ReadTwo(s: string, i: nat): nat
    requires i + 1 < |s| && '0' <= s[i] <= '9' && '0' <= s[i + 1] <= '9'
  {
    10 * (s[i] as int - '0' as int) + (s[i + 1] as int - '0' as int)
  }

  /** Of that shape, the texts that name a moment: a day of a month that has it, after year 0,
      and a time of day. */
  lemma ValidTimestampMeaning(s: string)
    ensures ValidTimestamp(s) <==>
      && Fits(s, SqlServerTemplate())
      && (forall i :: i in {0, 1, 2, 3, 5, 6, 8, 9, 11, 12, 14, 15, 17, 18} ==> i < |s| && '0' <= s[i] <= '9')
      && var y, m, d := ReadTwo(s, 0) * 100 + ReadTwo(s, 2), ReadTwo(s, 5), ReadTwo(s, 8);
         && y >= 1 && 1 <= m <= 12 && 1 <= d
         && (m != 2 ==> d <= 30 + (m + m / 8) % 2)
         && (m == 2 ==> d <= if (y % 4 == 0 && y % 100 != 0) || y % 400 == 0 then 29 else 28)
         && ReadTwo(s, 11) <= 23 && ReadTwo(s, 14) <= 59 && ReadTwo(s, 17) <= 59
  {
    SqlServerShape(s);
    if Fits(s, SqlServerTemplate()) {
      TwoDigitsRead(s);
      var y, m := TwoDigits(s, 0) * 100 + TwoDigits(s, 2), TwoDigits(s, 5);
      if 1 <= m <= 12 { MonthLengths(y, m); }
    }
  }

  lemma TwoDigitsRead(s: string)
    requires |s| == 28 && DigitsExcept(s, {4, 7, 10, 13, 16, 19, 27})
    ensures forall i :: i in {0, 1, 2, 3, 5, 6, 8, 9, 11, 12, 14, 15, 17, 18} ==> '0' <= s[i] <= '9'
    ensures forall i :: i in {0, 2, 5, 8, 11, 14, 17} ==> TwoDigits(s, i) == ReadTwo(s, i)
  {
  }

  predicate WellformedSqlServer(p: Parts) {
    ValidTimestamp(p.ts) && Fits(p.id, UuidTemplate())
  }

  /** `encodeSqlServerAuditCursor` */
  function EncodeSqlServerCursor(ts: string, id: string): Result<string, ()> {
    var p := Parts(ts, Lower(id));
    if !WellformedSqlServer(p) then Failed(())
    else
      PartsArePlain(p);
      Ok(PayloadCursor(Mssql1(), p))
  }

  /** `decodeSqlServerAuditCursor` */
  function DecodeSqlServerCursor(cursor: string): Result<Parts, ()> {
    if |cursor| > 256 || cursor == "" || !AllInAlphabet(cursor) then Failed(())
    else if Encode(Decode(cursor)) != cursor then Failed(())
    else
      var parts := Split(Utf8(Decode(cursor)));
      if |parts| != 3 || parts[0] != Mssql1() || !WellformedSqlServer(Parts(parts[1], parts[2])) then Failed(())
      else Ok(Parts(parts[1], parts[2]))
  }

  lemma SqlServerCursorLength(p: Parts)
    requires WellformedSqlServer(p) && PlainParts(p)
    ensures 0 < |PayloadCursor(Mssql1(), p)| <= 256
  {
    assert |SqlServerTemplate()| == 28 && |UuidTemplate()| == 36 && |Mssql1()| == 6;
    assert |Payload(Mssql1(), p)| == 72;
  }

  lemma BytesOfPayload(bytes: seq<Byte>, version: string, p: Parts)
    requires Ascii(version) && BarFree(version) && PlainParts(p)
    requires Split(Utf8(bytes)) == [version, p.ts, p.id]
    ensures bytes == Bytes(Payload(version, p))
  {
    PayloadSplits(Utf8(bytes), version, p);
    BytesOfText(bytes, Payload(version, p));
  }

  lemma PayloadIsPlain(p: Parts)
    requires WellformedSqlServer(p)
    ensures PlainParts(p)
  {
    PartsArePlain(p);
  }

  lemma Mssql1IsPlain()
    ensures Ascii(Mssql1()) && BarFree(Mssql1())
  {
  }

  lemma AcceptedPayload(cursor: string, version: string, p: Parts)
    requires Ascii(version) && BarFree(version) && PlainParts(p)
    requires AllInAlphabet(cursor) && Encode(Decode(cursor)) == cursor
    requires Split(Utf8(Decode(cursor))) == [version, p.ts, p.id]
    ensures cursor == PayloadCursor(version, p)
  {
    BytesOfPayload(Decode(cursor), version, p);
  }

  lemma EncodedPayload(p: Parts)
    requires WellformedSqlServer(p) && PlainParts(p)
    ensures Lower(p.id) == p.id && EncodeSqlServerCursor(p.ts, p.id) == Ok(PayloadCursor(Mssql1(), p))
  {
    LowerFits(p.id);
  }

  lemma AcceptedIsEncoding(cursor: string, p: Parts)
    requires DecodeSqlServerCursor(cursor) == Ok(p)
    ensures EncodeSqlServerCursor(p.ts, p.id) == Ok(cursor) && Lower(p.id) == p.id
  {
    PayloadIsPlain(p);
    Mssql1IsPlain();
    AcceptedPayload(cursor, Mssql1(), p);
    EncodedPayload(p);
  }

  lemma EncodingIsAccepted(cursor: string, p: Parts)
    requires EncodeSqlServerCursor(p.ts, p.id) == Ok(cursor) && Lower(p.id) == p.id
    ensures DecodeSqlServerCursor(cursor) == Ok(p)
  {
    PartsArePlain(p);
    SqlServerCursorLength(p);
    SqlServerPayloadBack(cursor, Mssql1(), p);
  }

  lemma SqlServerPayloadBack(cursor: string, version: string, p: Parts)
    requires Ascii(version) && BarFree(version) && PlainParts(p) && cursor == PayloadCursor(version, p)
    ensures Encode(Decode(cursor)) == cursor && Split(Utf8(Decode(cursor))) == [version, p.ts, p.id]
  {
    PayloadComesBack(version, p);
    DecodeEncode(Bytes(Payload(version, p)));
    PayloadSplits(Payload(version, p), version, p);
  }

  /** SQL Server's codec is canonical: a text is accepted exactly when it is the encoding of
      what it decodes to. */
  lemma SqlServerCursorIsCanonical(cursor: string, p: Parts)
    ensures DecodeSqlServerCursor(cursor) == Ok(p) <==>
      EncodeSqlServerCursor(p.ts, p.id) == Ok(cursor) && Lower(p.id) == p.id
  {
    if DecodeSqlServerCursor(cursor) == Ok(p) { AcceptedIsEncoding(cursor, p); }
    if EncodeSqlServerCursor(p.ts, p.id) == Ok(cursor) && Lower(p.id) == p.id { EncodingIsAccepted(cursor, p); }
  }

  lemma SqlServerRoundTrip(ts: string, id: string)
    ensures EncodeSqlServerCursor(ts, id).Ok? <==> WellformedSqlServer(Parts(ts, Lower(id)))
    ensures EncodeSqlServerCursor(ts, id).Ok? ==>
      DecodeSqlServerCursor(EncodeSqlServerCursor(ts, id).value) == Ok(Parts(ts, Lower(id)))
    ensures EncodeSqlServerCursor(ts, id).Ok? ==>
      var cursor := EncodeSqlServerCursor(ts, id).value;
      AllInAlphabet(cursor) && Utf8(Decode(cursor)) == "mssql1" + "|" + ts + "|" + Lower(id)
  {
    var p := Parts(ts, Lower(id));
    if WellformedSqlServer(p) {
      PayloadIsPlain(p);
      PayloadText(Mssql1(), p);
      PayloadComesBack(Mssql1(), p);
      LowerFits(p.id);
      SqlServerCursorIsCanonical(EncodeSqlServerCursor(ts, id).value, p);
    }
  }

  /** No text is a cursor of both databases. */
  lemma CursorsAreApart(cursor: string)
    ensures !(DecodeCursor(cursor).Ok? && DecodeSqlServerCursor(cursor).Ok?)
  {
    if AllInAlphabet(cursor) {
      SignificantAlphabet(cursor);
      assert |V1()| == 2 && |Mssql1()| == 6;
    }
  }

  // ----- order -----

  function DigitValue(c: char): nat
    requires HexDigit(c)
  {
    if c <= '9' then (c - '0') as nat else (c - 'a') as nat + 10
  }

  function Pow(base: nat, n: nat): nat {
    if n == 0 then 1 else base * Pow(base, n - 1)
  }

  function Count(s: string): nat {
    if s == "" then 0 else (if HexDigit(s[0]) then 1 else 0) + Count(s[1..])
  }

  /** The digits of `s` as one number; separators are skipped. */
  function Number(s: string, base: nat): nat {
    if s == "" then 0
    else if HexDigit(s[0]) then DigitValue(s[0]) * Pow(base, Count(s[1..])) + Number(s[1..], base)
    else Number(s[1..], base)
  }

  /** Templates in one base: only decimal digits for base 10. */
  predicate InBase(template: string, base: nat) {
    && (base == 10 || base == 16)
    && forall i :: 0 <= i < |template| ==> !HexDigit(template[i]) && (template[i] == '*' ==> base == 16)
  }

  lemma FitsTail(s: string, template: string)
    requires Fits(s, template) && s != ""
    ensures Fits(s[1..], template[1..]) && FitsChar(s[0], template[0])
  {
    assert forall i :: 0 <= i < |s[1..]| ==> s[1..][i] == s[i + 1] && template[1..][i] == template[i + 1];
  }

  lemma InBaseTail(template: string, base: nat)
    requires InBase(template, base) && template != ""
    ensures InBase(template[1..], base)
  {
    assert forall i :: 0 <= i < |template[1..]| ==> template[1..][i] == template[i + 1];
  }

  lemma {:induction false} SameCount(a: string, b: string, template: string, base: nat)
    requires InBase(template, base) && Fits(a, template) && Fits(b, template)
    ensures Count(a) == Count(b)
    decreases |a|
  {
    if a != "" {
      FitsTail(a, template);
      FitsTail(b, template);
      InBaseTail(template, base);
      SameCount(a[1..], b[1..], template[1..], base);
    }
  }

  lemma Scale(a: nat, b: nat, n: nat)
    requires a <= b
    ensures a * n <= b * n
  {
  }

  /** A digit outweighs everything after it. */
  lemma Leading(a: nat, b: nat, n: nat, x: nat, y: nat)
    requires a < b && x < n
    ensures a * n + x < b * n + y
  {
    Scale(a + 1, b, n);
  }

  lemma {:induction false} NumberBound(s: string, template: string, base: nat)
    requires InBase(template, base) && Fits(s, template)
    ensures Number(s, base) < Pow(base, Count(s))
    decreases |s|
  {
    if s != "" {
      FitsTail(s, template);
      InBaseTail(template, base);
      NumberBound(s[1..], template[1..], base);
      if HexDigit(s[0]) {
        Leading(DigitValue(s[0]), base, Pow(base, Count(s[1..])), Number(s[1..], base), 0);
      }
    }
  }

  /** Texts of one fixed-width template compare as the numbers they show. */
  lemma {:induction false} TextOrderIsNumberOrder(a: string, b: string, template: string, base: nat)
    requires InBase(template, base) && Fits(a, template) && Fits(b, template)
    ensures StringBefore(a, b) <==> Number(a, base) < Number(b, base)
    decreases |a|
  {
    if a != "" {
      FitsTail(a, template);
      FitsTail(b, template);
      InBaseTail(template, base);
      var x, y := a[1..], b[1..];
      TextOrderIsNumberOrder(x, y, template[1..], base);
      SameCount(x, y, template[1..], base);
      NumberBound(x, template[1..], base);
      NumberBound(y, template[1..], base);
      if HexDigit(a[0]) {
        var n, d, e := Pow(base, Count(x)), DigitValue(a[0]), DigitValue(b[0]);
        assert d < e <==> a[0] < b[0];
        if d < e { Leading(d, e, n, Number(x, base), Number(y, base)); }
        if e < d { Leading(e, d, n, Number(y, base), Number(x, base)); }
      }
    }
  }

  lemma TemplateBases()
    ensures InBase(MicroTemplate(), 10) && InBase(UuidTemplate(), 16)
  {
  }

  lemma {:induction false} UuidCount(s: string, template: string)
    requires InBase(template, 16) && Fits(s, template)
    ensures Count(s) == Stars(template)
    decreases |s|
  {
    if s != "" {
      FitsTail(s, template);
      InBaseTail(template, 16);
      UuidCount(s[1..], template[1..]);
    }
  }

  /** Positions of a template that hold a digit. */
  function Stars(template: string): nat {
    if template == "" then 0
    else (if template[0] == '*' || template[0] == '#' then 1 else 0) + Stars(template[1..])
  }

  lemma MulAssoc(a: nat, b: nat, c: nat)
    ensures a * (b * c) == (a * b) * c
  {
  }

  lemma PowAdd(base: nat, m: nat, n: nat)
    ensures Pow(base, m + n) == Pow(base, m) * Pow(base, n)
  {
    if m > 0 {
      PowAdd(base, m - 1, n);
      MulAssoc(base, Pow(base, m - 1), Pow(base, n));
    }
  }

  lemma IdLimit()
    ensures Pow(16, 32) == ID_LIMIT
  {
    assert Pow(16, 4) == 0x1_0000;
    PowAdd(16, 4, 4);
    PowAdd(16, 8, 8);
    PowAdd(16, 16, 16);
  }

  predicate DashAt(i: nat) {
    i == 8 || i == 13 || i == 18 || i == 23
  }

  lemma UuidChar(i: nat)
    requires i < 36
    ensures |UuidTemplate()| == 36 && UuidTemplate()[i] == if DashAt(i) then '-' else '*'
  {
  }

  function DashFrom(i: nat, dash: nat): nat {
    if i <= dash then 1 else 0
  }

  function StarsFrom(i: nat): int {
    36 - i - DashFrom(i, 8) - DashFrom(i, 13) - DashFrom(i, 18) - DashFrom(i, 23)
  }

  lemma {:induction false} UuidStarsFrom(template: string, i: nat)
    requires |template| == 36 && i <= 36 && template == UuidTemplate()
    ensures Stars(template[i..]) == StarsFrom(i)
    decreases 36 - i
  {
    if i < 36 {
      UuidStarsFrom(template, i + 1);
      UuidChar(i);
      assert template[i..][1..] == template[i + 1..];
    }
  }

  lemma UuidStars(template: string)
    requires |template| == 36 && template == UuidTemplate()
    ensures Stars(template) == 32
  {
    UuidStarsFrom(template, 0);
    assert template[0..] == template;
  }

  lemma IdBound(id: string, template: string)
    requires Fits(id, template) && |template| == 36 && template == UuidTemplate() && InBase(template, 16)
    ensures Number(id, 16) < ID_LIMIT
  {
    NumberBound(id, template, 16);
    UuidCount(id, template);
    UuidStars(template);
    IdLimit();
  }

  /** The uuid as a 128-bit number. */
  function IdNumber(id: string): Id
    requires Fits(id, UuidTemplate())
  {
    TemplateBases();
    IdBound(id, UuidTemplate());
    Number(id, 16)
  }

  /** The moment a timestamp's text names, when it names a real one. */
  function StampOf(ts: string): Stamp {
    Unpack(Number(ts, 10))
  }

  predicate NamesKey(p: Parts) {
    Wellformed(p) && RealStamp(StampOf(p.ts))
  }

  function KeyOf(p: Parts): Key
    requires NamesKey(p)
  {
    Key(Micros(StampOf(p.ts)), IdNumber(p.id))
  }

  /** `left.localeCompare(right)` on texts of one template. */
  function CompareText(left: string, right: string): int {
    if left == right then 0 else if StringBefore(left, right) then -1 else 1
  }

  /** `compareCursorParts` */
  function CompareParts(left: Parts, right: Parts): int {
    if left.ts == right.ts then CompareText(left.id, right.id) else CompareText(left.ts, right.ts)
  }

  lemma TextOrderStrict(a: string, b: string, template: string, base: nat)
    requires InBase(template, base) && Fits(a, template) && Fits(b, template)
    ensures Number(a, base) == Number(b, base) <==> a == b
  {
    TextOrderIsNumberOrder(a, b, template, base);
    TextOrderIsNumberOrder(b, a, template, base);
    StringOrderTotal(a, b);
  }

  /** Comparing the decoded texts of any two accepted cursors is comparing the numbers they
      show, first the timestamps' and then the ids'. */
  lemma ComparePartsIsNumberOrder(left: Parts, right: Parts)
    requires Wellformed(left) && Wellformed(right)
    ensures var a, b := Number(left.ts, 10), Number(right.ts, 10);
      && (CompareParts(left, right) < 0 <==> a < b || (a == b && IdNumber(left.id) < IdNumber(right.id)))
      && (CompareParts(left, right) == 0 <==> a == b && IdNumber(left.id) == IdNumber(right.id))
  {
    TemplateBases();
    TextOrderIsNumberOrder(left.ts, right.ts, MicroTemplate(), 10);
    TextOrderStrict(left.ts, right.ts, MicroTemplate(), 10);
    TextOrderIsNumberOrder(left.id, right.id, UuidTemplate(), 16);
    TextOrderStrict(left.id, right.id, UuidTemplate(), 16);
  }

  lemma MomentsAreNumbers(left: Parts, right: Parts)
    requires NamesKey(left) && NamesKey(right)
    ensures KeyOf(left).ts < KeyOf(right).ts <==> Number(left.ts, 10) < Number(right.ts, 10)
  {
    UnpackIsInverse(Number(left.ts, 10));
    UnpackIsInverse(Number(right.ts, 10));
    MicrosOrder(StampOf(left.ts), StampOf(right.ts));
  }

  /** For timestamps that name real moments that is comparing the row keys `(created_at, id)`. */
  lemma ComparePartsIsKeyOrder(left: Parts, right: Parts)
    requires Wellformed(left) && Wellformed(right)
    ensures NamesKey(left) && NamesKey(right) ==>
      && (CompareParts(left, right) < 0 <==> Before(KeyOf(left), KeyOf(right)))
      && (CompareParts(left, right) == 0 <==> KeyOf(left) == KeyOf(right))
  {
    ComparePartsIsNumberOrder(left, right);
    if NamesKey(left) && NamesKey(right) {
      MomentsAreNumbers(left, right);
      MomentsAreNumbers(right, left);
    }
  }
}
