/**
 * The sign-in message: the hand-written parser of the service against the printer of the login
 * page.  Address and time texts are read and written by library code, which is a parameter here.
 */
module Siwe {
  import opened Prelude
  import opened Text

  function SiweSuffix(): string {
    " wants you to " + "sign in with your " + "Ethereum account:"
  }

  datatype Codec = Codec(
    parseAddress: string -> Option<nat>, showAddress: nat -> string,
    parseTime: string -> Option<int>, showTime: int -> string)

  /** A text that a field can carry. */
  predicate IsField(s: string) {
    Trimmed(s) && '\n' !in s
  }

  /** Written texts are fields and read back as what was written. */
  ghost predicate Lawful(c: Codec) {
    && (forall a: nat :: IsField(c.showAddress(a)) && c.parseAddress(c.showAddress(a)) == Some(a))
    && (forall t: int :: IsField(c.showTime(t)) && c.parseTime(c.showTime(t)) == Some(t))
  }

  datatype Message = Message(
    domain: string, address: nat, statement: Option<string>, uri: string, chainId: nat, nonce: string, issuedAt: int)

  datatype ParseError = InvalidMessage

  // ----- What the parser computes -----

  /** The trimmed key and value of a line, if it has a colon. */
  function KeyValue(line: string): Option<(string, string)> {
    if IsBlank(line) then None
    else
      var kv := SplitOnce(line, ':');
      if kv.None? then None else Some((Trim(kv.value.0), Trim(kv.value.1)))
  }

  function FieldMap(lines: seq<string>): map<string, string> {
    if lines == [] then map[]
    else
      var kv := KeyValue(lines[|lines| - 1]);
      var rest := FieldMap(lines[..|lines| - 1]);
      if kv.None? then rest else rest[kv.value.0 := kv.value.1]
  }

  /** How many lines come before the first blank one. */
  function LinesToBlank(lines: seq<string>): (k: nat)
    ensures k <= |lines|
    ensures forall i :: 0 <= i < k ==> !IsBlank(lines[i])
    ensures k < |lines| ==> IsBlank(lines[k])
  {
    if lines == [] || IsBlank(lines[0]) then 0 else 1 + LinesToBlank(lines[1..])
  }

  function WithoutCrs(lines: seq<string>): (r: seq<string>)
    ensures |r| == |lines|
  {
    if lines == [] then [] else WithoutCrs(lines[..|lines| - 1]) + [StripCrs(lines[|lines| - 1])]
  }

  function StatementOf(lines: seq<string>): Option<string> {
    var s := Join(WithoutCrs(lines));
    if IsBlank(s) then None else Some(s)
  }

  function FromFields(c: Codec, domain: string, address: nat, statement: Option<string>, fields: map<string, string>)
    : Result<Message, ParseError>
  {
    if !("URI" in fields && "Version" in fields && "Chain ID" in fields
         && "Nonce" in fields && "Issued At" in fields) then Err(InvalidMessage)
    else
      var chainId := ParseU64(fields["Chain ID"]);
      var issuedAt := c.parseTime(fields["Issued At"]);
      if chainId.None? || issuedAt.None? || Trim(fields["Version"]) != "1" then Err(InvalidMessage)
      else Ok(Message(domain, address, statement, fields["URI"], chainId.value, fields["Nonce"], issuedAt.value))
  }

  function ParseLines(c: Codec, lines: seq<string>): Result<Message, ParseError> {
    if |lines| < 2 then Err(InvalidMessage)
    else
      var domain := StripSuffix(lines[0], SiweSuffix());
      var address := c.parseAddress(Trim(lines[1]));
      if domain.None? || address.None? || (|lines| > 2 && !IsBlank(lines[2])) then Err(InvalidMessage)
      else
        var rest := if |lines| > 2 then lines[3..] else [];
        var k := LinesToBlank(rest);
        var fieldLines := if k < |rest| then rest[k + 1..] else [];
        FromFields(c, Trim(domain.value), address.value, StatementOf(rest[..k]), FieldMap(fieldLines))
  }

  /** The program's parser, consuming the lines one by one. */
  method Parse(c: Codec, message: string) returns (r: Result<Message, ParseError>)
    ensures r == ParseLines(c, Lines(message))
  {
    hide Lines, Trim, StripSuffix, IsBlank, Join, KeyValue, StripCrs, ParseU64;
    var lines := Lines(message);
    var next := 0;
    if next >= |lines| {
      return Err(InvalidMessage);
    }
    var header := lines[next];
    next := next + 1;
    var stripped := StripSuffix(header, SiweSuffix());
    if stripped.None? {
      return Err(InvalidMessage);
    }
    var domain := Trim(stripped.value);
    if next >= |lines| {
      return Err(InvalidMessage);
    }
    var address := c.parseAddress(Trim(lines[next]));
    next := next + 1;
    if address.None? {
      return Err(InvalidMessage);
    }
    if next < |lines| {
      if !IsBlank(lines[next]) {
        return Err(InvalidMessage);
      }
      next := next + 1;
    }
    var rest := lines[next..];
    var statement, used := ReadStatement(rest);
    var fields := ReadFields(rest[used..]);
    if "URI" !in fields || "Version" !in fields || "Chain ID" !in fields {
      return Err(InvalidMessage);
    }
    var uri := fields["URI"];
    var version := fields["Version"];
    var chainId := ParseU64(fields["Chain ID"]);
    if chainId.None? || "Nonce" !in fields || "Issued At" !in fields {
      return Err(InvalidMessage);
    }
    var nonce := fields["Nonce"];
    var issuedAt := c.parseTime(fields["Issued At"]);
    if issuedAt.None? || Trim(version) != "1" {
      return Err(InvalidMessage);
    }
    return Ok(Message(domain, address.value, statement, uri, chainId.value, nonce, issuedAt.value));
  }

  /** Collects lines up to a blank one, which it consumes too. */
  method ReadStatement(rest: seq<string>) returns (statement: Option<string>, used: nat)
    ensures var k := LinesToBlank(rest);
            statement == StatementOf(rest[..k]) && used == if k < |rest| then k + 1 else k
  {
    hide IsBlank, Join, StripCrs;
    var statementLines: seq<string> := [];
    used := 0;
    var k := 0;
    while used < |rest|
      invariant used <= |rest| && used == k
      invariant statementLines == rest[..k]
      invariant forall i :: 0 <= i < k ==> !IsBlank(rest[i])
    {
      var line := rest[used];
      used := used + 1;
      if IsBlank(line) {
        break;
      }
      statementLines := statementLines + [line];
      k := k + 1;
    }
    LinesToBlankIs(rest, k);
    var trimmed: seq<string> := [];
    for i := 0 to |statementLines|
      invariant trimmed == WithoutCrs(statementLines[..i])
    {
      assert statementLines[..i + 1][..i] == statementLines[..i];
      trimmed := trimmed + [StripCrs(statementLines[i])];
    }
    assert statementLines[..|statementLines|] == statementLines;
    var joined := Join(trimmed);
    statement := if IsBlank(joined) then None else Some(joined);
  }

  lemma {:induction false} LinesToBlankIs(lines: seq<string>, k: nat)
    requires k <= |lines| && (forall i :: 0 <= i < k ==> !IsBlank(lines[i])) && (k < |lines| ==> IsBlank(lines[k]))
    ensures LinesToBlank(lines) == k
  {
    if k > 0 {
      LinesToBlankIs(lines[1..], k - 1);
    }
  }

  method ReadFields(lines: seq<string>) returns (fields: map<string, string>)
    ensures fields == FieldMap(lines)
  {
    hide IsBlank, SplitOnce, Trim;
    fields := map[];
    for i := 0 to |lines|
      invariant fields == FieldMap(lines[..i])
    {
      assert lines[..i + 1][..i] == lines[..i];
      if IsBlank(lines[i]) {
        continue;
      }
      var kv := SplitOnce(lines[i], ':');
      if kv.Some? {
        fields := fields[Trim(kv.value.0) := Trim(kv.value.1)];
      }
    }
    assert lines[..|lines|] == lines;
  }

  // ----- The printer -----

  function FieldLine(key: string, value: string): string {
    key + ": " + value
  }

  function KnownKeys(): seq<string> {
    ["URI", "Version", "Chain ID", "Nonce", "Issued At"]
  }

  /** What a message writes under each of the known keys. */
  function ValueOf(c: Codec, m: Message, key: string): string {
    match key
    case "URI" => m.uri
    case "Version" => "1"
    case "Chain ID" => ShowNat(m.chainId)
    case "Nonce" => m.nonce
    case _ => c.showTime(m.issuedAt)
  }

  function LinesFor(c: Codec, m: Message, keys: seq<string>): (r: seq<string>)
    ensures |r| == |keys|
    ensures forall i :: 0 <= i < |keys| ==> r[i] == FieldLine(keys[i], ValueOf(c, m, keys[i]))
  {
    if keys == [] then []
    else [FieldLine(keys[0], ValueOf(c, m, keys[0]))] + LinesFor(c, m, keys[1..])
  }

  function FieldLines(c: Codec, m: Message): seq<string> {
    LinesFor(c, m, KnownKeys())
  }

  function StatementSection(m: Message): string {
    if m.statement.Some? then m.statement.value + "\n" else ""
  }

  /** The message text, with the given lines in the field section. */
  function Print(c: Codec, m: Message, fields: seq<string>): string {
    m.domain + SiweSuffix() + "\n" + c.showAddress(m.address) + "\n\n" +
    StatementSection(m) + "\n" + Join(fields)
  }

  /** Fields the format can carry; a statement is one or more visible lines. */
  predicate WellFormed(m: Message) {
    && IsField(m.domain) && IsField(m.uri) && IsField(m.nonce)
    && m.chainId <= U64_MAX
    && (m.statement.Some? ==> forall p :: p in Pieces(m.statement.value) ==> IsLine(p) && !IsBlank(p))
  }

  predicate IsKnownKey(key: string) {
    key in KnownKeys()
  }

  /** The field lines of m in any order, with any other lines that do not use their keys. */
  ghost predicate Arranges(c: Codec, m: Message, fields: seq<string>) {
    && fields != [] && fields[|fields| - 1] != ""
    && (forall l :: l in FieldLines(c, m) ==> l in fields)
    && (forall l :: l in fields ==> IsLine(l))
    && (forall l :: l in fields ==> l in FieldLines(c, m) || KeyValue(l).None? || !IsKnownKey(KeyValue(l).value.0))
  }

  // ----- Round trip -----

  lemma KeyedLineReads(key: string, value: string)
    requires Trimmed(key) && key != "" && ':' !in key && '\n' !in key && IsField(value)
    ensures KeyValue(FieldLine(key, value)) == Some((key, value))
    ensures IsLine(FieldLine(key, value)) && FieldLine(key, value) != ""
  {
    var line := FieldLine(key, value);
    assert line == key + [':'] + (" " + value);
    VisibleStart(line);
    SplitOnceIs(key, ':', " " + value);
    TrimTrimmed(key);
    TrimTrimmed(value);
    assert value != "" ==> line[|line| - 1] == value[|value| - 1];
  }

  lemma KnownKeyText(key: string)
    requires IsKnownKey(key)
    ensures Trimmed(key) && key != "" && ':' !in key && '\n' !in key
  {
  }

  lemma ValueIsField(c: Codec, m: Message, key: string)
    requires Lawful(c) && WellFormed(m) && IsKnownKey(key)
    ensures IsField(ValueOf(c, m, key))
  {
    U64RoundTrip(m.chainId);
    hide ShowNat;
    assert IsField("1");
  }

  /** The line for a known key reads back as that key and its value. */
  lemma FieldLineReads(c: Codec, m: Message, key: string)
    requires Lawful(c) && WellFormed(m) && IsKnownKey(key)
    ensures var line := FieldLine(key, ValueOf(c, m, key));
            KeyValue(line) == Some((key, ValueOf(c, m, key))) && IsLine(line) && line != ""
  {
    KnownKeyText(key);
    ValueIsField(c, m, key);
    hide KnownKeys, ValueOf, FieldLine, KeyValue, IsLine, IsField, WellFormed, Lawful;
    KeyedLineReads(key, ValueOf(c, m, key));
  }

  lemma {:induction false} FieldLookup(lines: seq<string>, line: string, key: string, value: string)
    requires line in lines && KeyValue(line) == Some((key, value))
    requires forall l :: l in lines && KeyValue(l).Some? && KeyValue(l).value.0 == key ==> KeyValue(l).value.1 == value
    ensures key in FieldMap(lines) && FieldMap(lines)[key] == value
  {
    hide KeyValue;
    var n := |lines| - 1;
    assert lines[n] in lines;
    assert lines == lines[..n] + [lines[n]];
    if line in lines[..n] {
      FieldLookup(lines[..n], line, key, value);
    }
  }

  /** Any arrangement of the field lines gives the same lookups. */
  lemma ArrangedLookup(c: Codec, m: Message, fields: seq<string>, key: string)
    requires Lawful(c) && WellFormed(m) && Arranges(c, m, fields) && IsKnownKey(key)
    ensures key in FieldMap(fields) && FieldMap(fields)[key] == ValueOf(c, m, key)
  {
    hide KeyValue, FieldMap, FieldLine, ValueOf, KnownKeys, WellFormed, Lawful, IsLine;
    var all := FieldLines(c, m);
    var i :| 0 <= i < |KnownKeys()| && KnownKeys()[i] == key;
    var line := all[i];
    assert line in all;
    FieldLineReads(c, m, key);
    forall l | l in fields && KeyValue(l).Some? && KeyValue(l).value.0 == key
      ensures KeyValue(l).value.1 == ValueOf(c, m, key)
    {
      assert l in all;
      var j :| 0 <= j < |all| && all[j] == l;
      assert KnownKeys()[j] in KnownKeys();
      FieldLineReads(c, m, KnownKeys()[j]);
    }
    FieldLookup(fields, line, key, ValueOf(c, m, key));
  }

  /** From such lookups the parser rebuilds the message. */
  lemma ArrangedFields(c: Codec, m: Message, fields: seq<string>)
    requires Lawful(c) && WellFormed(m) && Arranges(c, m, fields)
    ensures FromFields(c, m.domain, m.address, m.statement, FieldMap(fields)) == Ok(m)
  {
    hide KeyValue, FieldMap, FieldLines, Arranges, WellFormed, Lawful, ShowNat, ParseU64, Trim;
    var keys := KnownKeys();
    assert keys[0] in keys && keys[1] in keys && keys[2] in keys && keys[3] in keys && keys[4] in keys;
    ArrangedLookup(c, m, fields, "URI");
    ArrangedLookup(c, m, fields, "Version");
    ArrangedLookup(c, m, fields, "Chain ID");
    ArrangedLookup(c, m, fields, "Nonce");
    ArrangedLookup(c, m, fields, "Issued At");
    ScalarsRead(c, m);
  }

  lemma ScalarsRead(c: Codec, m: Message)
    requires Lawful(c) && WellFormed(m)
    ensures ParseU64(ShowNat(m.chainId)) == Some(m.chainId)
    ensures c.parseTime(c.showTime(m.issuedAt)) == Some(m.issuedAt)
    ensures c.parseAddress(Trim(c.showAddress(m.address))) == Some(m.address)
    ensures Trim("1") == "1" && Trim(m.domain) == m.domain
  {
    U64RoundTrip(m.chainId);
    TrimTrimmed("1");
    TrimTrimmed(m.domain);
    TrimTrimmed(c.showAddress(m.address));
  }

  /** The lines of the statement section. */
  function StatementLines(m: Message): seq<string> {
    if m.statement.Some? then Pieces(m.statement.value) else []
  }

  lemma FieldIsLine(s: string)
    requires IsField(s)
    ensures IsLine(s)
  {
  }

  lemma HeaderReads(s: string)
    requires IsField(s)
    ensures IsLine(s + SiweSuffix()) && StripSuffix(s + SiweSuffix(), SiweSuffix()) == Some(s)
  {
    SuffixText();
    hide SiweSuffix;
    var h := s + SiweSuffix();
    assert h[|s|..] == SiweSuffix() && h[..|s|] == s;
  }

  lemma SuffixText()
    ensures SiweSuffix() != "" && '\n' !in SiweSuffix() && SiweSuffix()[|SiweSuffix()| - 1] == ':'
  {
    assert '\n' !in " wants you to ";
    assert '\n' !in "sign in with your ";
    assert '\n' !in "Ethereum account:";
  }

  /** The printed text splits into the lines that were meant. */
  lemma PrintedLines(c: Codec, m: Message, fields: seq<string>)
    requires Lawful(c) && WellFormed(m) && Arranges(c, m, fields)
    ensures Lines(Print(c, m, fields)) ==
            [m.domain + SiweSuffix(), c.showAddress(m.address), ""] + StatementLines(m) + [""] + fields
  {
    var header, address := m.domain + SiweSuffix(), c.showAddress(m.address);
    HeaderReads(m.domain);
    FieldIsLine(address);
    LinesOfJoin(fields);
    var section := StatementSection(m);
    StatementSectionLines(m, "\n" + Join(fields));
    hide Lines, SiweSuffix, StatementLines, StatementSection, Join, Arranges, WellFormed, Lawful;
    FirstLine("", Join(fields));
    assert "" + "\n" + Join(fields) == "\n" + Join(fields);
    var body := section + ("\n" + Join(fields));
    FirstLine("", body);
    FirstLine(address, "" + "\n" + body);
    FirstLine(header, address + "\n" + ("" + "\n" + body));
    RegroupText(header, address, section, Join(fields));
    RegroupLines(header, address, StatementLines(m), fields);
  }

  lemma RegroupText(header: string, address: string, section: string, tail: string)
    ensures header + "\n" + address + "\n\n" + section + "\n" + tail
         == header + "\n" + (address + "\n" + ("" + "\n" + (section + ("\n" + tail))))
  {
  }

  lemma RegroupLines(header: string, address: string, stmt: seq<string>, fields: seq<string>)
    ensures [header] + ([address] + ([""] + (stmt + ([""] + fields)))) == [header, address, ""] + stmt + [""] + fields
  {
  }

  lemma StatementSectionLines(m: Message, tail: string)
    requires WellFormed(m)
    ensures Lines(StatementSection(m) + tail) == StatementLines(m) + Lines(tail)
  {
    if m.statement.Some? {
      var t := m.statement.value;
      JoinPieces(t);
      hide Lines, Join;
      LinesInFront(Pieces(t), tail);
    } else {
      assert "" + tail == tail;
      assert [] + Lines(tail) == Lines(tail);
    }
  }

  lemma {:induction false} NoCrs(lines: seq<string>)
    requires forall l :: l in lines ==> IsLine(l)
    ensures WithoutCrs(lines) == lines
  {
    if lines != [] {
      assert lines[|lines| - 1] in lines;
      NoCrs(lines[..|lines| - 1]);
      assert lines == lines[..|lines| - 1] + [lines[|lines| - 1]];
    }
  }

  lemma {:induction false} BlankMeansSpaces(s: string)
    ensures IsBlank(s) <==> forall c :: c in s ==> IsSpace(c)
  {
    TrimStartSpaces(s);
    var t := TrimStart(s);
    if t != "" {
      TrimEndKeepsStart(t);
      assert t[0] in s;
    }
  }

  lemma {:induction false} TrimStartSpaces(s: string)
    ensures var t := TrimStart(s);
            && (t != "" ==> !IsSpace(t[0]))
            && (forall c :: c in t ==> c in s)
            && (t == "" ==> forall c :: c in s ==> IsSpace(c))
  {
    if s != "" && IsSpace(s[0]) {
      TrimStartSpaces(s[1..]);
      assert s == [s[0]] + s[1..];
    }
  }

  /** A statement comes back from its lines. */
  lemma StatementReads(m: Message)
    requires WellFormed(m)
    ensures StatementOf(StatementLines(m)) == m.statement
  {
    if m.statement.Some? {
      var t := m.statement.value;
      NoCrs(Pieces(t));
      JoinPieces(t);
      var first := Pieces(t)[0];
      assert first in Pieces(t);
      BlankMeansSpaces(first);
      BlankMeansSpaces(t);
      var i := Find(t, '\n');
      assert first == t[..i];
      assert forall ch :: ch in t[..i] ==> ch in t;
    }
  }

  /** What the parser makes of a header, an address, a statement section and a field section. */
  lemma Sections(c: Codec, header: string, domain: string, address: string, a: nat, stmt: seq<string>,
      fields: seq<string>)
    requires StripSuffix(header, SiweSuffix()) == Some(domain) && c.parseAddress(Trim(address)) == Some(a)
    requires forall p :: p in stmt ==> !IsBlank(p)
    ensures ParseLines(c, [header, address, ""] + stmt + [""] + fields)
         == FromFields(c, Trim(domain), a, StatementOf(stmt), FieldMap(fields))
  {
    hide SiweSuffix, StripSuffix, FromFields, FieldMap, StatementOf, Trim;
    var lines := [header, address, ""] + stmt + [""] + fields;
    var rest := stmt + [""] + fields;
    assert lines[3..] == rest;
    EmptyIsBlank();
    hide IsBlank;
    StatementPart(stmt, fields);
    hide LinesToBlank;
  }

  lemma EmptyIsBlank()
    ensures IsBlank("")
  {
  }

  lemma StatementPart(stmt: seq<string>, fields: seq<string>)
    requires forall p :: p in stmt ==> !IsBlank(p)
    ensures var rest := stmt + [""] + fields;
            LinesToBlank(rest) == |stmt| && rest[..|stmt|] == stmt && rest[|stmt| + 1..] == fields
  {
    var rest := stmt + [""] + fields;
    EmptyIsBlank();
    hide IsBlank;
    forall i | 0 <= i < |stmt| ensures !IsBlank(rest[i]) {
      assert rest[i] == stmt[i] && stmt[i] in stmt;
    }
    LinesToBlankIs(rest, |stmt|);
  }

  /** Parsing a printed message gives the message back, whatever the order of its field lines. */
  lemma ParsePrint(c: Codec, m: Message, fields: seq<string>)
    requires Lawful(c) && WellFormed(m) && Arranges(c, m, fields)
    ensures ParseLines(c, Lines(Print(c, m, fields))) == Ok(m)
  {
    PrintedLines(c, m, fields);
    HeaderReads(m.domain);
    ScalarsRead(c, m);
    StatementReads(m);
    ArrangedFields(c, m, fields);
    hide Lines, Print, SiweSuffix, StripSuffix, Trim, ParseLines, FromFields, FieldMap, StatementOf, Pieces, Arranges,
        Lawful;
    Sections(c, m.domain + SiweSuffix(), m.domain, c.showAddress(m.address), m.address, StatementLines(m), fields);
  }

  /** So the message of the login page, with its fields in the usual order, reads back. */
  lemma LoginPageMessage(c: Codec, m: Message)
    requires Lawful(c) && WellFormed(m)
    ensures ParseLines(c, Lines(Print(c, m, FieldLines(c, m)))) == Ok(m)
  {
    assert |KnownKeys()| == 5;
    hide Lines, Print, ParseLines, KnownKeys, KeyValue, WellFormed, Lawful, FieldLine, ValueOf, IsLine;
    var all := FieldLines(c, m);
    forall i | 0 <= i < |all|
      ensures IsLine(all[i]) && all[i] != ""
    {
      assert KnownKeys()[i] in KnownKeys();
      FieldLineReads(c, m, KnownKeys()[i]);
    }
    ParsePrint(c, m, all);
  }
}
