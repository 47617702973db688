/**
 * Which texts the parser accepts, and what it reads from them, said on the lines of the text.
 */
module SiweAccepts {
  import opened Prelude
  import opened Siwe
  import opened Text

  // ----- Lines -----

  /** The line has a colon, with the key before the first one and the value after it. */
  ghost predicate Sets(line: string, key: string, value: string) {
    exists p :: 0 <= p < |line| && SetsAt(line, p, key, value)
  }

  ghost predicate SetsAt(line: string, p: nat, key: string, value: string)
    requires p < |line|
  {
    line[p] == ':' && ':' !in line[..p] && Trim(line[..p]) == key && Trim(line[p + 1..]) == value
  }

  /** The last line with this key has this value. */
  ghost predicate LastSets(lines: seq<string>, key: string, value: string) {
    exists i :: 0 <= i < |lines| && Sets(lines[i], key, value)
                && forall j, v :: i < j < |lines| ==> !Sets(lines[j], key, v)
  }

  /** A character of the line is not white space. */
  ghost predicate Visible(line: string) {
    exists ch :: ch in line && !IsSpace(ch)
  }

  /** The first k lines are the visible ones up to the first blank one or the end. */
  ghost predicate UpToBlank(lines: seq<string>, k: nat) {
    && k <= |lines| && (forall i :: 0 <= i < k ==> Visible(lines[i]))
    && (k < |lines| ==> !Visible(lines[k]))
  }

  /** The lines without the carriage returns at their ends. */
  ghost predicate WithoutReturns(lines: seq<string>, cut: seq<string>) {
    |cut| == |lines| && forall i :: 0 <= i < |lines| ==> CutReturns(lines[i], cut[i])
  }

  ghost predicate CutReturns(line: string, cut: string) {
    && cut <= line && (forall i :: |cut| <= i < |line| ==> line[i] == '\r')
    && (cut != "" ==> cut[|cut| - 1] != '\r')
  }

  /** The statement of these lines: none if there are none, else the lines joined. */
  ghost predicate IsStatement(lines: seq<string>, statement: Option<string>) {
    if lines == [] then statement == None
    else exists cut :: WithoutReturns(lines, cut) && statement == Some(Join(cut))
  }

  /**
   * The lines read as message m: a header with the fixed ending, an address, a line that is blank
   * if it is there, the statement up to the next blank line, and after that the five fields, each
   * from the last line that sets it, with version 1.
   */
  ghost predicate ReadsAs(c: Codec, lines: seq<string>, m: Message) {
    && |lines| >= 2
    && HeaderRead(lines[0], m.domain)
    && c.parseAddress(Trim(lines[1])) == Some(m.address)
    && (|lines| > 2 ==> !Visible(lines[2]))
    && BodyRead(c, if |lines| > 2 then lines[3..] else [], m)
  }

  ghost predicate HeaderRead(line: string, domain: string) {
    exists d :: line == d + " wants you to sign in with your Ethereum account:" && domain == Trim(d)
  }

  ghost predicate BodyRead(c: Codec, lines: seq<string>, m: Message) {
    exists k: nat :: UpToBlank(lines, k) && IsStatement(lines[..k], m.statement)
                     && FieldsRead(c, if k < |lines| then lines[k + 1..] else [], m)
  }

  ghost predicate FieldsRead(c: Codec, lines: seq<string>, m: Message) {
    && LastSets(lines, "URI", m.uri)
    && LastSets(lines, "Version", "1")
    && (exists v :: LastSets(lines, "Chain ID", v) && ParseU64(v) == Some(m.chainId))
    && LastSets(lines, "Nonce", m.nonce)
    && (exists v :: LastSets(lines, "Issued At", v) && c.parseTime(v) == Some(m.issuedAt))
  }

  // ----- White space -----

  predicate AllSpaces(s: string) {
    forall ch :: ch in s ==> IsSpace(ch)
  }

  lemma {:induction false} TrimStartCuts(s: string) returns (a: string)
    ensures s == a + TrimStart(s) && AllSpaces(a) && (TrimStart(s) != "" ==> !IsSpace(TrimStart(s)[0]))
  {
    if s != "" && IsSpace(s[0]) {
      a := TrimStartCuts(s[1..]);
      a := [s[0]] + a;
    } else {
      a := "";
    }
  }

  lemma {:induction false} TrimEndCuts(s: string) returns (b: string)
    ensures s == TrimEnd(s) + b && AllSpaces(b)
    ensures TrimEnd(s) != "" ==> !IsSpace(TrimEnd(s)[|TrimEnd(s)| - 1])
  {
    if s != "" && IsSpace(s[|s| - 1]) {
      b := TrimEndCuts(s[..|s| - 1]);
      b := b + [s[|s| - 1]];
    } else {
      b := "";
    }
  }

  /** Trimming cuts off white space on both sides and leaves none at either end. */
  lemma TrimCuts(s: string)
    ensures Trimmed(Trim(s))
    ensures exists a, b :: s == a + Trim(s) + b && AllSpaces(a) && AllSpaces(b)
  {
    var t := TrimStart(s);
    var a := TrimStartCuts(s);
    var b := TrimEndCuts(t);
    assert s == a + Trim(s) + b;
    assert Trim(s) != "" ==> Trim(s)[0] == t[0];
  }

  lemma TrimTwice(s: string)
    ensures Trim(Trim(s)) == Trim(s)
  {
    TrimCuts(s);
    TrimTrimmed(Trim(s));
  }

  /** A text that has a visible character is not blank, and the other way round. */
  lemma BlankExactly(s: string)
    ensures IsBlank(s) <==> !Visible(s)
  {
    BlankMeansSpaces(s);
  }

  // ----- Fields -----

  lemma KeyValueExactly(line: string, key: string, value: string)
    ensures KeyValue(line) == Some((key, value)) <==> Sets(line, key, value)
  {
    hide Trim, IsBlank;
    BlankExactly(line);
    var i := Find(line, ':');
    if i < |line| {
      assert line[i] in line;
      assert SetsAt(line, i, Trim(line[..i]), Trim(line[i + 1..]));
    }
    if p :| 0 <= p < |line| && SetsAt(line, p, key, value) {
      FindIs(line, ':', p);
    }
  }

  lemma {:induction false} FieldMapExactly(lines: seq<string>, key: string, value: string)
    ensures (key in FieldMap(lines) && FieldMap(lines)[key] == value) <==> LastSets(lines, key, value)
  {
    if lines != [] {
      var n := |lines| - 1;
      var rest := lines[..n];
      FieldMapExactly(rest, key, value);
      forall v
        ensures KeyValue(lines[n]) == Some((key, v)) <==> Sets(lines[n], key, v)
      {
        KeyValueExactly(lines[n], key, v);
      }
      hide KeyValue, Sets;
      LastSetsStep(lines, key, value);
    }
  }

  /** One more line: it counts if it sets the key, and else the last one before it does. */
  lemma LastSetsStep(lines: seq<string>, key: string, value: string)
    requires lines != []
    ensures var n := |lines| - 1;
            LastSets(lines, key, value) <==>
              Sets(lines[n], key, value) || ((forall v :: !Sets(lines[n], key, v)) && LastSets(lines[..n], key, value))
  {
    hide Sets;
    var n := |lines| - 1;
    var rest := lines[..n];
    if i :| 0 <= i < |lines| && Sets(lines[i], key, value)
            && forall j, v :: i < j < |lines| ==> !Sets(lines[j], key, v) {
      if i < n {
        assert rest[i] == lines[i] && forall j :: i < j < n ==> rest[j] == lines[j];
      }
    }
    if (forall v :: !Sets(lines[n], key, v)) && LastSets(rest, key, value) {
      var i :| 0 <= i < n && Sets(rest[i], key, value) && forall j, v :: i < j < n ==> !Sets(rest[j], key, v);
      forall j, v | i < j < |lines|
        ensures !Sets(lines[j], key, v)
      {
        assert j < n ==> rest[j] == lines[j];
      }
      assert Sets(lines[i], key, value);
    }
  }

  /** A key in the map has a last line, with a trimmed value. */
  lemma FieldIsTrimmed(lines: seq<string>, key: string)
    requires key in FieldMap(lines)
    ensures LastSets(lines, key, FieldMap(lines)[key]) && Trim(FieldMap(lines)[key]) == FieldMap(lines)[key]
  {
    hide FieldMap;
    var value := FieldMap(lines)[key];
    FieldMapExactly(lines, key, value);
    var i :| 0 <= i < |lines| && Sets(lines[i], key, value);
    var p :| 0 <= p < |lines[i]| && SetsAt(lines[i], p, key, value);
    TrimTwice(lines[i][p + 1..]);
  }

  lemma OneValue(lines: seq<string>, key: string, value: string)
    ensures LastSets(lines, key, value) <==> key in FieldMap(lines) && FieldMap(lines)[key] == value
  {
    FieldMapExactly(lines, key, value);
  }

  lemma FieldsExactly(c: Codec, lines: seq<string>, domain: string, address: nat, statement: Option<string>, m: Message)
    ensures FromFields(c, domain, address, statement, FieldMap(lines)) == Ok(m) <==>
              m.domain == domain && m.address == address && m.statement == statement && FieldsRead(c, lines, m)
  {
    hide FieldMap, LastSets, ParseU64, Trim;
    forall key, value
      ensures LastSets(lines, key, value) <==> key in FieldMap(lines) && FieldMap(lines)[key] == value
    {
      OneValue(lines, key, value);
    }
    if "Version" in FieldMap(lines) {
      FieldIsTrimmed(lines, "Version");
    }
  }

  // ----- The statement -----

  lemma {:induction false} StripCrsCuts(line: string)
    ensures CutReturns(line, StripCrs(line))
  {
    if line != "" && line[|line| - 1] == '\r' {
      var rest := line[..|line| - 1];
      StripCrsCuts(rest);
    }
  }

  lemma CutIsUnique(line: string, a: string, b: string)
    requires CutReturns(line, a) && CutReturns(line, b)
    ensures a == b
  {
    NotLonger(line, a, b);
    NotLonger(line, b, a);
  }

  lemma NotLonger(line: string, a: string, b: string)
    requires CutReturns(line, a) && CutReturns(line, b)
    ensures |b| <= |a|
  {
    assert b != "" ==> b[|b| - 1] == line[|b| - 1];
  }

  lemma {:induction false} WithoutCrsExactly(lines: seq<string>, cut: seq<string>)
    ensures WithoutReturns(lines, cut) <==> cut == WithoutCrs(lines)
  {
    WithoutCrsAt(lines);
    hide WithoutCrs;
    if WithoutReturns(lines, cut) {
      forall i | 0 <= i < |lines|
        ensures cut[i] == WithoutCrs(lines)[i]
      {
        CutIsUnique(lines[i], cut[i], WithoutCrs(lines)[i]);
      }
    }
  }

  lemma {:induction false} WithoutCrsAt(lines: seq<string>)
    ensures WithoutReturns(lines, WithoutCrs(lines))
  {
    if lines != [] {
      var n := |lines| - 1;
      WithoutCrsAt(lines[..n]);
      StripCrsCuts(lines[n]);
      hide StripCrs, CutReturns;
      var cut := WithoutCrs(lines);
      forall i | 0 <= i < |lines|
        ensures CutReturns(lines[i], cut[i])
      {
        if i < n {
          assert lines[i] == lines[..n][i] && cut[i] == WithoutCrs(lines[..n])[i];
        }
      }
    }
  }

  /** A visible character survives the cut and the join. */
  lemma JoinIsVisible(lines: seq<string>)
    requires lines != [] && Visible(lines[0])
    ensures !IsBlank(Join(WithoutCrs(lines)))
  {
    WithoutCrsAt(lines);
    hide WithoutCrs;
    var cut := WithoutCrs(lines);
    var ch :| ch in lines[0] && !IsSpace(ch);
    assert CutReturns(lines[0], cut[0]);
    var i :| 0 <= i < |lines[0]| && lines[0][i] == ch;
    assert cut[0][i] == ch;
    assert cut[0] <= Join(cut);
    BlankExactly(Join(cut));
  }

  lemma StatementExactly(lines: seq<string>, statement: Option<string>)
    requires forall i :: 0 <= i < |lines| ==> Visible(lines[i])
    ensures StatementOf(lines) == statement <==> IsStatement(lines, statement)
  {
    if lines == [] {
      BlankExactly("");
    } else {
      JoinIsVisible(lines);
      WithoutCrsAt(lines);
      forall cut
        ensures WithoutReturns(lines, cut) <==> cut == WithoutCrs(lines)
      {
        WithoutCrsExactly(lines, cut);
      }
      hide WithoutReturns, WithoutCrs, Join, IsBlank;
    }
  }

  // ----- The whole text -----

  lemma HeaderExactly(line: string, domain: string)
    ensures HeaderRead(line, domain) <==>
            var d := StripSuffix(line, SiweSuffix()); d.Some? && Trim(d.value) == domain
  {
    SuffixLiteral();
    hide SiweSuffix, Trim;
    var suffix := SiweSuffix();
    if StripSuffix(line, suffix).Some? {
      var d := line[..|line| - |suffix|];
      assert line == d + suffix;
    }
    if d :| line == d + suffix && domain == Trim(d) {
      assert line[|line| - |suffix|..] == suffix && line[..|line| - |suffix|] == d;
    }
  }

  lemma SuffixLiteral()
    ensures SiweSuffix() == " wants you to sign in with your Ethereum account:"
  {
  }

  lemma UpToBlankExactly(lines: seq<string>, k: nat)
    ensures UpToBlank(lines, k) <==> k == LinesToBlank(lines)
  {
    forall i | 0 <= i < |lines|
      ensures IsBlank(lines[i]) <==> !Visible(lines[i])
    {
      BlankExactly(lines[i]);
    }
    hide IsBlank, Visible;
    if UpToBlank(lines, k) {
      LinesToBlankIs(lines, k);
    }
  }

  lemma BodyAt(c: Codec, lines: seq<string>, k: nat, m: Message)
    requires k == LinesToBlank(lines)
    ensures BodyRead(c, lines, m) <==>
              IsStatement(lines[..k], m.statement) && FieldsRead(c, if k < |lines| then lines[k + 1..] else [], m)
  {
    hide LinesToBlank, IsStatement, FieldsRead, Visible;
    UpToBlankExactly(lines, k);
    if n: nat :| UpToBlank(lines, n) && IsStatement(lines[..n], m.statement)
                 && FieldsRead(c, if n < |lines| then lines[n + 1..] else [], m) {
      UpToBlankExactly(lines, n);
    }
  }

  lemma VisibleToBlank(lines: seq<string>)
    ensures forall i :: 0 <= i < LinesToBlank(lines) ==> Visible(lines[i])
  {
    UpToBlankExactly(lines, LinesToBlank(lines));
    hide LinesToBlank, Visible;
  }

  /** The statement and the fields, as the parser reads them from the lines after the separator. */
  lemma BodyExactly(c: Codec, lines: seq<string>, domain: string, address: nat, m: Message)
    ensures var k := LinesToBlank(lines);
            FromFields(c, domain, address, StatementOf(lines[..k]),
                       FieldMap(if k < |lines| then lines[k + 1..] else [])) == Ok(m) <==>
            m.domain == domain && m.address == address && BodyRead(c, lines, m)
  {
    hide LinesToBlank, StatementOf, FromFields, FieldMap, FieldsRead, IsStatement, UpToBlank, BodyRead, Visible;
    var k := LinesToBlank(lines);
    VisibleToBlank(lines);
    BodyAt(c, lines, k, m);
    StatementExactly(lines[..k], m.statement);
    FieldsExactly(c, if k < |lines| then lines[k + 1..] else [], domain, address, StatementOf(lines[..k]), m);
  }

  /**
   * The parser accepts a text exactly when its lines read as a message, and that message is what
   * it returns.
   */
  lemma AcceptsExactly(c: Codec, lines: seq<string>, m: Message)
    ensures ParseLines(c, lines) == Ok(m) <==> ReadsAs(c, lines, m)
  {
    hide SiweSuffix, StripSuffix, Trim, IsBlank, StatementOf, FromFields, FieldMap, LinesToBlank, BodyRead, Visible;
    hide HeaderRead;
    if |lines| >= 2 {
      HeaderExactly(lines[0], m.domain);
      if |lines| > 2 {
        BlankExactly(lines[2]);
      }
      var d := StripSuffix(lines[0], SiweSuffix());
      var a := c.parseAddress(Trim(lines[1]));
      if d.Some? && a.Some? {
        BodyExactly(c, if |lines| > 2 then lines[3..] else [], Trim(d.value), a.value, m);
      }
    }
  }

  // ----- The login page -----

  lemma JoinTwo(a: string, b: string)
    ensures Join([a, b]) == a + "\n" + b
  {
    assert [a, b][1..] == [b];
  }

  lemma JoinFive(a: string, b: string, d: string, e: string, f: string)
    ensures Join([a, b, d, e, f]) == a + "\n" + (b + "\n" + (d + "\n" + (e + "\n" + f)))
  {
    hide Join;
    JoinTwo(e, f);
    JoinStep(d, [e, f]);
    assert [d] + [e, f] == [d, e, f];
    JoinStep(b, [d, e, f]);
    assert [b] + [d, e, f] == [b, d, e, f];
    JoinStep(a, [b, d, e, f]);
    assert [a] + [b, d, e, f] == [a, b, d, e, f];
  }

  /** The field lines of the login page, as text. */
  lemma LoginPageFields(c: Codec, m: Message)
    ensures FieldLines(c, m) == ["URI: " + m.uri, "Version: 1", "Chain ID: " + ShowNat(m.chainId),
                                 "Nonce: " + m.nonce, "Issued At: " + c.showTime(m.issuedAt)]
    ensures Join(FieldLines(c, m)) ==
              "URI: " + m.uri + "\n" + ("Version: 1" + "\n" + ("Chain ID: " + ShowNat(m.chainId) + "\n" +
              ("Nonce: " + m.nonce + "\n" + ("Issued At: " + c.showTime(m.issuedAt)))))
  {
    hide ShowNat, Join;
    var keys := KnownKeys();
    assert keys == ["URI", "Version", "Chain ID", "Nonce", "Issued At"];
    forall i | 0 <= i < 5
      ensures FieldLines(c, m)[i] == FieldLine(keys[i], ValueOf(c, m, keys[i]))
    {
    }
    KeyColons();
    JoinFive("URI: " + m.uri, "Version: 1", "Chain ID: " + ShowNat(m.chainId), "Nonce: " + m.nonce,
             "Issued At: " + c.showTime(m.issuedAt));
  }

  lemma KeyColons()
    ensures "URI" + ": " == "URI: " && "Version" + ": " + "1" == "Version: 1" && "Chain ID" + ": " == "Chain ID: "
    ensures "Nonce" + ": " == "Nonce: " && "Issued At" + ": " == "Issued At: "
  {
  }
}
