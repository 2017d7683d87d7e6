/** The text formats the file-system driver reads: `.tc` stubs and index entries.

    Stubs are `key value` lines, index entries `key=value` lines.  Parsing folds
    over the lines; printing and parsing are proved inverse, with the exact
    condition on the free-form fields. */
module StubText {
  import opened Basics

  type U64 = n: nat | n < 0x1_0000_0000_0000_0000

  datatype ParseError =
    | NoSeparator
    | UnsupportedVersion
    | InvalidNumber
    | MissingVersion
    | MissingField

  datatype StubMeta = StubMeta(
    chunks: U64, compressed: bool, fetched: bool, oid: string, origin: string, size: U64)

  datatype IndexEntry = IndexEntry(manifestHash: string, size: U64, chunks: U64)

  const STUB_VERSION: string := "https://tummycrypt.io/tcfs/v1"

  // ---- Decimal numbers ----

  function Digit(d: nat): char
    requires d < 10
  {
    ('0' as int + d) as char
  }

  function Decimal(n: nat): string
  {
    if n < 10 then [Digit(n)] else Decimal(n / 10) + [Digit(n % 10)]
  }

  function DecimalValue(s: string): Option<nat>
  {
    if s == "" then Some(0) else
      var last := s[|s| - 1];
      match DecimalValue(s[..|s| - 1])
      case Some(n) => if '0' <= last <= '9' then Some(10 * n + (last as int - '0' as int)) else None
      case None => None
  }

  /** Unsigned 64-bit parsing: an optional plus sign, at least one digit, no overflow. */
  function ParseU64(s: string): Option<U64>
  {
    var digits := if s != "" && s[0] == '+' then s[1..] else s;
    if digits == "" then None else
      match DecimalValue(digits)
      case Some(n) => if n < 0x1_0000_0000_0000_0000 then Some(n) else None
      case None => None
  }

  lemma {:induction false} DecimalInverse(n: nat)
    ensures Decimal(n) != "" && DecimalValue(Decimal(n)) == Some(n)
    ensures forall i | 0 <= i < |Decimal(n)| :: '0' <= Decimal(n)[i] <= '9'
  {
    if n < 10 {
      assert Decimal(n)[..0] == "";
    } else {
      DecimalInverse(n / 10);
      assert Decimal(n)[..|Decimal(n)| - 1] == Decimal(n / 10);
    }
  }

  function Zeros(z: nat): string
  {
    if z == 0 then "" else Zeros(z - 1) + "0"
  }

  lemma {:induction false} ZerosValue(z: nat)
    ensures DecimalValue(Zeros(z)) == Some(0)
  {
    if 0 < z {
      ZerosValue(z - 1);
      assert Zeros(z)[..|Zeros(z)| - 1] == Zeros(z - 1);
    }
  }

  lemma {:induction false} PaddedValue(z: nat, n: nat)
    ensures DecimalValue(Zeros(z) + Decimal(n)) == Some(n)
  {
    var s := Zeros(z) + Decimal(n);
    if n < 10 {
      ZerosValue(z);
      assert s[..|s| - 1] == Zeros(z);
    } else {
      PaddedValue(z, n / 10);
      assert s[..|s| - 1] == Zeros(z) + Decimal(n / 10);
    }
  }

  lemma {:induction false} ValueIsPadded(digits: string, n: nat) returns (z: nat)
    requires digits != "" && DecimalValue(digits) == Some(n)
    ensures digits == Zeros(z) + Decimal(n)
  {
    var front, last := digits[..|digits| - 1], digits[|digits| - 1];
    assert digits == front + [last];
    if front == "" {
      z := 0;
    } else {
      var k := DecimalValue(front).value;
      z := ValueIsPadded(front, k);
      if k == 0 {
        z := z + 1;
      } else {
        assert Zeros(z) + Decimal(n) == Zeros(z) + Decimal(k) + [last];
      }
    }
  }

  /** The decimal form of the number, after some zeros. */
  predicate Pads(s: string, n: nat, z: nat)
  {
    s == Zeros(z) + Decimal(n)
  }

  /** The texts that parse to a number are exactly its decimal form, with any leading zeros and an optional plus. */
  lemma {:induction false} NumberParsesIff(s: string, n: U64)
    ensures ParseU64(s) == Some(n) <==>
            exists z: nat :: Pads(s, n, z) || ("+" <= s && Pads(s[1..], n, z))
  {
    var digits := if "+" <= s then s[1..] else s;
    DigitsParseIff(digits, n);
    if z: nat :| Pads(s, n, z) {
      PaddedIsDigits(z, n);
    }
  }

  lemma {:induction false} DigitsParseIff(digits: string, n: nat)
    ensures digits != "" && DecimalValue(digits) == Some(n) <==> exists z: nat :: Pads(digits, n, z)
  {
    if digits != "" && DecimalValue(digits) == Some(n) {
      var z := ValueIsPadded(digits, n);
      assert Pads(digits, n, z);
    }
    if z: nat :| Pads(digits, n, z) {
      PaddedValue(z, n);
      PaddedIsDigits(z, n);
    }
  }

  lemma {:induction false} PaddedIsDigits(z: nat, n: nat)
    ensures Decimal(n) != "" && '+' !in Zeros(z) + Decimal(n)
  {
    DecimalInverse(n);
    if 0 < z {
      PaddedIsDigits(z - 1, n);
    }
  }

  /** Printed numbers parse back exactly when they fit in 64 bits. */
  lemma {:induction false} ParsePrintedNumber(n: nat)
    ensures n < 0x1_0000_0000_0000_0000 ==> ParseU64(Decimal(n)) == Some(n)
    ensures n >= 0x1_0000_0000_0000_0000 ==> ParseU64(Decimal(n)) == None
  {
    DecimalInverse(n);
    assert Decimal(n)[0] != '+';
  }

  // ---- Lines and separators ----

  function Find(s: string, c: char): (i: nat)
    ensures i <= |s| && c !in s[..i]
    ensures i < |s| ==> s[i] == c
  {
    if s == "" || s[0] == c then 0 else
      var i := Find(s[1..], c) + 1;
      assert s[..i] == [s[0]] + s[1..][..i - 1];
      i
  }

  lemma {:induction false} NotInPrefix(s: string, c: char, i: nat)
    requires i <= |s|
    ensures c !in s[..i] <==> forall k | 0 <= k < i :: s[k] != c
  {
    forall k | 0 <= k < i
      ensures s[k] == s[..i][k]
    {
    }
  }

  lemma {:induction false} FindUnique(s: string, c: char, i: nat)
    requires i <= |s| && c !in s[..i] && (i < |s| ==> s[i] == c)
    ensures Find(s, c) == i
  {
    NotInPrefix(s, c, i);
    NotInPrefix(s, c, Find(s, c));
  }

  function SplitOnce(s: string, c: char): Option<(string, string)>
  {
    var i := Find(s, c);
    if i == |s| then None else Some((s[..i], s[i + 1..]))
  }

  lemma SplitJoined(key: string, c: char, value: string)
    requires c !in key
    ensures SplitOnce(key + [c] + value, c) == Some((key, value))
  {
    var s := key + [c] + value;
    assert s[..|key|] == key;
    FindUnique(s, c, |key|);
  }

  function StripCr(line: string): string
  {
    if line != "" && line[|line| - 1] == '\r' then line[..|line| - 1] else line
  }

  /** Lines end at a newline, which may be preceded by a carriage return; the last may be unterminated. */
  function Lines(text: string): seq<string>
    decreases |text|
  {
    if text == "" then [] else
      var i := Find(text, '\n');
      if i == |text| then [text] else [StripCr(text[..i])] + Lines(text[i + 1..])
  }

  function Unlines(lines: seq<string>): string
  {
    if lines == [] then "" else lines[0] + "\n" + Unlines(lines[1..])
  }

  predicate OneLine(s: string)
  {
    '\n' !in s
  }

  /** Survives being the end of a line: no newline inside, no carriage return at the end. */
  predicate LineSafe(s: string)
  {
    OneLine(s) && StripCr(s) == s
  }

  function Stripped(lines: seq<string>): (r: seq<string>)
    ensures |r| == |lines|
    ensures forall i | 0 <= i < |lines| :: r[i] == StripCr(lines[i])
  {
    if lines == [] then [] else [StripCr(lines[0])] + Stripped(lines[1..])
  }

  lemma {:induction false} LinesOfUnlines(lines: seq<string>)
    requires forall i | 0 <= i < |lines| :: OneLine(lines[i])
    ensures Lines(Unlines(lines)) == Stripped(lines)
  {
    if lines != [] {
      LinesOfUnlines(lines[1..]);
      var text := Unlines(lines);
      assert text == lines[0] + "\n" + Unlines(lines[1..]);
      assert text[..|lines[0]|] == lines[0];
      FindUnique(text, '\n', |lines[0]|);
      assert text[|lines[0]| + 1..] == Unlines(lines[1..]);
    }
  }

  /** How a text falls into lines: each ends at a newline, without a carriage return before that; what follows the last
      newline is a line of its own, as it is, unless it is empty. */
  lemma {:induction false} LinesOfText(line: string, rest: string)
    requires OneLine(line)
    ensures Lines(line + "\n" + rest) == [StripCr(line)] + Lines(rest)
    ensures Lines(line) == if line == "" then [] else [line]
  {
    var text := line + "\n" + rest;
    assert text[..|line|] == line && text[|line| + 1..] == rest;
    FindUnique(text, '\n', |line|);
    assert Find(line, '\n') == |line|;
  }

  lemma {:induction false} LinesAreOneLine(text: string)
    ensures forall i | 0 <= i < |Lines(text)| :: OneLine(Lines(text)[i])
    decreases |text|
  {
    if text != "" {
      var i := Find(text, '\n');
      if i < |text| {
        LinesAreOneLine(text[i + 1..]);
      } else {
        assert text[..i] == text;
      }
    }
  }

  // ---- Stubs ----

  /** What the parser has collected so far. */
  datatype Fields = Fields(
    chunks: Option<U64>, compressed: Option<bool>, fetched: Option<bool>,
    oid: Option<string>, origin: Option<string>, size: Option<U64>, version: bool)

  function NoFields(): Fields
  {
    Fields(None, None, None, None, None, None, false)
  }

  function SetField(f: Fields, key: string, value: string): Result<Fields, ParseError>
  {
    if key == "version" then
      if value != STUB_VERSION then Err(UnsupportedVersion) else Ok(f.(version := true))
    else if key == "chunks" then
      var n := ParseU64(value);
      if n.None? then Err(InvalidNumber) else Ok(f.(chunks := n))
    else if key == "compressed" then Ok(f.(compressed := Some(value != "0")))
    else if key == "fetched" then Ok(f.(fetched := Some(value != "0")))
    else if key == "oid" then Ok(f.(oid := Some(value)))
    else if key == "origin" then Ok(f.(origin := Some(value)))
    else if key == "size" then
      var n := ParseU64(value);
      if n.None? then Err(InvalidNumber) else Ok(f.(size := n))
    else Ok(f)
  }

  function ParseLine(f: Fields, line: string): Result<Fields, ParseError>
  {
    if line == "" then Ok(f) else
      match SplitOnce(line, ' ')
      case None => Err(NoSeparator)
      case Some((key, value)) => SetField(f, key, value)
  }

  function ParseFields(lines: seq<string>): Result<Fields, ParseError>
  {
    if lines == [] then Ok(NoFields()) else
      match ParseFields(lines[..|lines| - 1])
      case Ok(f) => ParseLine(f, lines[|lines| - 1])
      case Err(e) => Err(e)
  }

  function Finish(f: Fields): Result<StubMeta, ParseError>
  {
    if !f.version then Err(MissingVersion)
    else if f.oid.None? || f.origin.None? || f.size.None? then Err(MissingField)
    else
      Ok(StubMeta(if f.chunks.Some? then f.chunks.value else 0,
                  f.compressed == Some(true), f.fetched == Some(true),
                  f.oid.value, f.origin.value, f.size.value))
  }

  function ParseLines(lines: seq<string>): Result<StubMeta, ParseError>
  {
    match ParseFields(lines)
    case Ok(f) => Finish(f)
    case Err(e) => Err(e)
  }

  function ParsedStub(text: string): Result<StubMeta, ParseError>
  {
    ParseLines(Lines(text))
  }

  lemma {:induction false} ErrorsPersist(lines: seq<string>, n: nat)
    requires n <= |lines| && ParseFields(lines[..n]).Err?
    ensures ParseFields(lines) == ParseFields(lines[..n])
    decreases |lines|
  {
    if n < |lines| {
      var front := lines[..|lines| - 1];
      assert front[..n] == lines[..n];
      ErrorsPersist(front, n);
    } else {
      assert lines[..n] == lines;
    }
  }

  /** The parser's loop: options assigned line by line, leaving at the first error. */
  method ParseStub(text: string) returns (r: Result<StubMeta, ParseError>)
    ensures r == ParsedStub(text)
  {
    var lines := Lines(text);
    var f := NoFields();
    var i := 0;
    while i < |lines|
      invariant 0 <= i <= |lines|
      invariant ParseFields(lines[..i]) == Ok(f)
    {
      assert lines[..i + 1][..i] == lines[..i];
      match ParseLine(f, lines[i]) {
        case Err(e) =>
          ErrorsPersist(lines, i + 1);
          return Err(e);
        case Ok(f') =>
          f := f';
      }
      i := i + 1;
    }
    assert lines[..i] == lines;
    r := Finish(f);
  }

  function Flag(b: bool): string
  {
    if b then "1" else "0"
  }

  /** The seven lines of a stub, version first, then the keys in alphabetical order. */
  function StubLines(m: StubMeta): seq<string>
  {
    ["version" + " " + STUB_VERSION,
     "chunks" + " " + Decimal(m.chunks),
     "compressed" + " " + Flag(m.compressed),
     "fetched" + " " + Flag(m.fetched),
     "oid" + " " + m.oid,
     "origin" + " " + m.origin,
     "size" + " " + Decimal(m.size)]
  }

  function PrintStub(m: StubMeta): string
  {
    Unlines(StubLines(m))
  }

  lemma UnlinesMore(line: string, rest: seq<string>)
    ensures Unlines([line] + rest) == line + "\n" + Unlines(rest)
  {
    assert ([line] + rest)[1..] == rest;
  }

  lemma {:induction false} ThreeLines(a: string, b: string, c: string)
    ensures Unlines([a, b, c]) == a + "\n" + (b + "\n" + (c + "\n"))
  {
    assert [a, b, c] == [a] + [b, c] && [b, c] == [b] + [c] && [c] == [c] + [];
    UnlinesMore(a, [b, c]);
    UnlinesMore(b, [c]);
    UnlinesMore(c, []);
    assert c + "\n" + "" == c + "\n";
  }

  lemma {:induction false} SevenLines(a: string, b: string, c: string, d: string, e: string, f: string, g: string)
    ensures Unlines([a, b, c, d, e, f, g]) ==
            a + "\n" + (b + "\n" + (c + "\n" + (d + "\n" + (e + "\n" + (f + "\n" + (g + "\n"))))))
  {
    assert [a, b, c, d, e, f, g] == [a] + [b, c, d, e, f, g];
    UnlinesMore(a, [b, c, d, e, f, g]);
    assert [b, c, d, e, f, g] == [b] + [c, d, e, f, g];
    UnlinesMore(b, [c, d, e, f, g]);
    assert [c, d, e, f, g] == [c] + [d, e, f, g];
    UnlinesMore(c, [d, e, f, g]);
    assert [d, e, f, g] == [d] + [e, f, g];
    UnlinesMore(d, [e, f, g]);
    ThreeLines(e, f, g);
  }

  /** The printed stub, written out. */
  lemma {:induction false} StubIsPrintedAs(m: StubMeta)
    ensures PrintStub(m) == "version" + " " + STUB_VERSION + "\n" + ("chunks" + " " + Decimal(m.chunks) + "\n" +
            ("compressed" + " " + Flag(m.compressed) + "\n" + ("fetched" + " " + Flag(m.fetched) + "\n" +
            ("oid" + " " + m.oid + "\n" + ("origin" + " " + m.origin + "\n" +
            ("size" + " " + Decimal(m.size) + "\n"))))))
  {
    SevenLines("version" + " " + STUB_VERSION, "chunks" + " " + Decimal(m.chunks),
               "compressed" + " " + Flag(m.compressed), "fetched" + " " + Flag(m.fetched),
               "oid" + " " + m.oid, "origin" + " " + m.origin, "size" + " " + Decimal(m.size));
  }

  predicate KnownKey(key: string)
  {
    key in {"version", "chunks", "compressed", "fetched", "oid", "origin", "size"}
  }

  /** A line every stub parser must skip: blank, or with a key it does not know. */
  predicate Ignorable(line: string)
  {
    || line == ""
    || (SplitOnce(line, ' ').Some? && !KnownKey(SplitOnce(line, ' ').value.0))
  }

  function KeyAt(k: nat): string
    requires k < 7
  {
    ["version", "chunks", "compressed", "fetched", "oid", "origin", "size"][k]
  }

  function ValueAt(m: StubMeta, k: nat): string
    requires k < 7
  {
    [STUB_VERSION, Decimal(m.chunks), Flag(m.compressed), Flag(m.fetched), m.oid, m.origin, Decimal(m.size)][k]
  }

  lemma CanonicalSplit(m: StubMeta, k: nat)
    requires k < 7
    ensures StubLines(m)[k] != ""
    ensures SplitOnce(StubLines(m)[k], ' ') == Some((KeyAt(k), ValueAt(m, k)))
    ensures !Ignorable(StubLines(m)[k])
  {
    SplitJoined(KeyAt(k), ' ', ValueAt(m, k));
    assert StubLines(m)[k] == KeyAt(k) + [' '] + ValueAt(m, k);
  }

  function WithField(f: Fields, m: StubMeta, k: nat): Fields
  {
    match k
    case 0 => f.(version := true)
    case 1 => f.(chunks := Some(m.chunks))
    case 2 => f.(compressed := Some(m.compressed))
    case 3 => f.(fetched := Some(m.fetched))
    case 4 => f.(oid := Some(m.oid))
    case 5 => f.(origin := Some(m.origin))
    case _ => f.(size := Some(m.size))
  }

  /** What each of the seven lines does to the collected fields. */
  lemma CanonicalLine(f: Fields, m: StubMeta, k: nat)
    requires k < 7
    ensures ParseLine(f, StubLines(m)[k]) == Ok(WithField(f, m, k))
  {
    ParsePrintedNumber(m.chunks);
    ParsePrintedNumber(m.size);
    CanonicalSplit(m, k);
    assert "origin"[0] == 'o' && "chunks"[0] == 'c' && "version"[0] == 'v' && "fetched"[0] == 'f';
  }

  predicate HasField(f: Fields, k: nat)
  {
    match k
    case 0 => f.version
    case 1 => f.chunks.Some?
    case 2 => f.compressed.Some?
    case 3 => f.fetched.Some?
    case 4 => f.oid.Some?
    case 5 => f.origin.Some?
    case _ => f.size.Some?
  }

  /** Nothing was collected that is not in `m`. */
  predicate Within(f: Fields, m: StubMeta)
  {
    && (f.chunks.None? || f.chunks == Some(m.chunks))
    && (f.compressed.None? || f.compressed == Some(m.compressed))
    && (f.fetched.None? || f.fetched == Some(m.fetched))
    && (f.oid.None? || f.oid == Some(m.oid))
    && (f.origin.None? || f.origin == Some(m.origin))
    && (f.size.None? || f.size == Some(m.size))
  }

  /** Each line is one of the lines of `m` or one the parser must skip. */
  ghost predicate Arranges(lines: seq<string>, m: StubMeta)
  {
    forall i | 0 <= i < |lines| :: lines[i] in StubLines(m) || Ignorable(lines[i])
  }

  lemma {:induction false} IgnorableLine(f: Fields, line: string)
    requires Ignorable(line)
    ensures ParseLine(f, line) == Ok(f)
  {
    if line != "" {
      var key := SplitOnce(line, ' ').value.0;
      assert key != "version" && key != "chunks" && key != "compressed" && key != "fetched";
    }
  }

  lemma {:induction false} FillWithin(f: Fields, m: StubMeta, j: nat)
    requires Within(f, m)
    ensures Within(WithField(f, m, j), m)
  {
    match j
    case 0 =>
    case 1 =>
    case 2 =>
    case 3 =>
    case 4 =>
    case 5 =>
    case _ =>
  }

  lemma {:induction false} FillField(f: Fields, m: StubMeta, j: nat, k: nat)
    requires j < 7 && k < 7 && (j == k || HasField(f, k))
    ensures HasField(WithField(f, m, j), k)
  {
  }

  lemma CollectCanonical(f: Fields, m: StubMeta, j: nat)
    requires j < 7 && Within(f, m)
    ensures var r := ParseLine(f, StubLines(m)[j]);
            r.Ok? && Within(r.value, m) && HasField(r.value, j)
            && forall k | 0 <= k < 7 && HasField(f, k) :: HasField(r.value, k)
  {
    CanonicalLine(f, m, j);
    FillWithin(f, m, j);
    FillField(f, m, j, j);
    forall k | 0 <= k < 7 && HasField(f, k)
      ensures HasField(WithField(f, m, j), k)
    {
      FillField(f, m, j, k);
    }
  }

  /** The lines of `m` that have been read are collected. */
  ghost predicate Collected(f: Fields, m: StubMeta, lines: seq<string>)
  {
    Within(f, m) && forall k | 0 <= k < 7 && StubLines(m)[k] in lines :: HasField(f, k)
  }

  lemma CollectNext(f: Fields, m: StubMeta, front: seq<string>, line: string)
    requires Collected(f, m, front) && (line in StubLines(m) || Ignorable(line))
    ensures ParseLine(f, line).Ok? && Collected(ParseLine(f, line).value, m, front + [line])
  {
    if line in StubLines(m) {
      var j :| 0 <= j < 7 && StubLines(m)[j] == line;
      CollectCanonical(f, m, j);
      forall k | 0 <= k < 7 && StubLines(m)[k] in front + [line]
        ensures HasField(ParseLine(f, line).value, k)
      {
        if StubLines(m)[k] == line {
          CollectCanonical(f, m, k);
        } else {
          assert StubLines(m)[k] in front;
        }
      }
    } else {
      IgnorableLine(f, line);
    }
  }

  lemma {:induction false} CollectFields(lines: seq<string>, m: StubMeta)
    requires Arranges(lines, m)
    ensures ParseFields(lines).Ok? && Collected(ParseFields(lines).value, m, lines)
  {
    if lines != [] {
      var front, line := lines[..|lines| - 1], lines[|lines| - 1];
      CollectFields(front, m);
      CollectNext(ParseFields(front).value, m, front, line);
      assert front + [line] == lines;
    }
  }

  /** Whatever the order and repetition of the seven lines, and whatever ignorable lines are mixed in,
      the parser returns the metadata. */
  lemma AnyArrangementParses(lines: seq<string>, m: StubMeta)
    requires Arranges(lines, m)
    requires forall k | 0 <= k < 7 :: StubLines(m)[k] in lines
    ensures ParseLines(lines) == Ok(m)
  {
    CollectFields(lines, m);
    var f := ParseFields(lines).value;
    assert forall k | 0 <= k < 7 :: HasField(f, k);
    assert HasField(f, 0) && HasField(f, 1) && HasField(f, 2) && HasField(f, 3);
    assert HasField(f, 4) && HasField(f, 5) && HasField(f, 6);
  }

  /** The same for the text made of such lines. */
  lemma {:induction false} AnyArrangedTextParses(lines: seq<string>, m: StubMeta)
    requires Arranges(lines, m) && forall i | 0 <= i < |lines| :: LineSafe(lines[i])
    requires forall k | 0 <= k < 7 :: StubLines(m)[k] in lines
    ensures ParsedStub(Unlines(lines)) == Ok(m)
  {
    LinesOfUnlines(lines);
    assert Stripped(lines) == lines;
    AnyArrangementParses(lines, m);
  }

  lemma {:induction false} ParsedFieldsAreOneLine(lines: seq<string>)
    requires forall i | 0 <= i < |lines| :: OneLine(lines[i])
    ensures var r := ParseFields(lines);
            r.Ok? ==> (r.value.oid.Some? ==> OneLine(r.value.oid.value))
                      && (r.value.origin.Some? ==> OneLine(r.value.origin.value))
  {
    if lines != [] {
      ParsedFieldsAreOneLine(lines[..|lines| - 1]);
    }
  }

  lemma StripValue(m: StubMeta, k: nat)
    requires k < 7 && OneLine(m.oid) && OneLine(m.origin)
    ensures OneLine(KeyAt(k)) && OneLine(ValueAt(m, k))
    ensures StripCr(ValueAt(m, k)) == ValueAt(m.(oid := StripCr(m.oid), origin := StripCr(m.origin)), k)
  {
    match k
    case 0 =>
    case 1 => DecimalInverse(m.chunks);
    case 2 =>
    case 3 =>
    case 4 =>
    case 5 =>
    case _ => DecimalInverse(m.size);
  }

  lemma StubLineAt(m: StubMeta, k: nat)
    requires k < 7
    ensures StubLines(m)[k] == KeyAt(k) + [' '] + ValueAt(m, k)
  {
  }

  lemma {:induction false} StripStubLine(m: StubMeta, k: nat)
    requires k < 7 && OneLine(m.oid) && OneLine(m.origin)
    ensures OneLine(StubLines(m)[k])
    ensures StripCr(StubLines(m)[k]) == StubLines(m.(oid := StripCr(m.oid), origin := StripCr(m.origin)))[k]
  {
    StripValue(m, k);
    StubLineAt(m, k);
    StubLineAt(m.(oid := StripCr(m.oid), origin := StripCr(m.origin)), k);
    StripAfterKey(KeyAt(k) + [' '], ValueAt(m, k));
  }

  lemma StrippedStubLines(m: StubMeta)
    requires OneLine(m.oid) && OneLine(m.origin)
    ensures forall i | 0 <= i < 7 :: OneLine(StubLines(m)[i])
    ensures Stripped(StubLines(m)) == StubLines(m.(oid := StripCr(m.oid), origin := StripCr(m.origin)))
  {
    var m' := m.(oid := StripCr(m.oid), origin := StripCr(m.origin));
    var lines, lines' := StubLines(m), StubLines(m');
    forall i | 0 <= i < 7
      ensures OneLine(lines[i]) && StripCr(lines[i]) == lines'[i]
    {
      StripStubLine(m, i);
    }
    assert |lines| == 7 == |lines'|;
    assert Stripped(lines) == lines';
  }

  lemma StripAfterKey(key: string, value: string)
    requires key != "" && key[|key| - 1] != '\r'
    ensures StripCr(key + value) == key + StripCr(value)
  {
  }

  /** A printed stub parses back to the same metadata exactly when neither free-form field contains a
      newline or ends in a carriage return. */
  lemma StubRoundTrip(m: StubMeta)
    ensures ParsedStub(PrintStub(m)) == Ok(m) <==> LineSafe(m.oid) && LineSafe(m.origin)
  {
    var text := PrintStub(m);
    LinesAreOneLine(text);
    ParsedFieldsAreOneLine(Lines(text));
    if OneLine(m.oid) && OneLine(m.origin) {
      var m' := m.(oid := StripCr(m.oid), origin := StripCr(m.origin));
      StrippedStubLines(m);
      LinesOfUnlines(StubLines(m));
      AnyArrangementParses(StubLines(m'), m');
    }
  }

  /** An origin of two lines does not come back. */
  lemma {:induction false} NewlineBreaksStub(m: StubMeta)
    requires m.origin == "a\nb"
    ensures ParsedStub(PrintStub(m)) != Ok(m)
  {
    StubRoundTrip(m);
    assert m.origin[1] == '\n';
  }

  // ---- Index entries ----

  datatype IndexFields = IndexFields(hash: Option<string>, size: Option<U64>, chunks: Option<U64>)

  /** Lines without an equals sign and unknown keys are skipped. */
  function ParseIndexLine(f: IndexFields, line: string): Result<IndexFields, ParseError>
  {
    match SplitOnce(line, '=')
    case None => Ok(f)
    case Some((key, value)) =>
      if key == "manifest_hash" then Ok(f.(hash := Some(value)))
      else if key == "size" then
        var n := ParseU64(value);
        if n.None? then Err(InvalidNumber) else Ok(f.(size := n))
      else if key == "chunks" then
        var n := ParseU64(value);
        if n.None? then Err(InvalidNumber) else Ok(f.(chunks := n))
      else Ok(f)
  }

  function ParseIndexFields(lines: seq<string>): Result<IndexFields, ParseError>
  {
    if lines == [] then Ok(IndexFields(None, None, None)) else
      match ParseIndexFields(lines[..|lines| - 1])
      case Ok(f) => ParseIndexLine(f, lines[|lines| - 1])
      case Err(e) => Err(e)
  }

  function ParsedIndex(text: string): Result<IndexEntry, ParseError>
  {
    match ParseIndexFields(Lines(text))
    case Err(e) => Err(e)
    case Ok(f) =>
      if f.hash.None? || f.size.None? then Err(MissingField)
      else Ok(IndexEntry(f.hash.value, f.size.value, if f.chunks.Some? then f.chunks.value else 0))
  }

  lemma {:induction false} IndexErrorsPersist(lines: seq<string>, n: nat)
    requires n <= |lines| && ParseIndexFields(lines[..n]).Err?
    ensures ParseIndexFields(lines) == ParseIndexFields(lines[..n])
    decreases |lines|
  {
    if n < |lines| {
      var front := lines[..|lines| - 1];
      assert front[..n] == lines[..n];
      IndexErrorsPersist(front, n);
    } else {
      assert lines[..n] == lines;
    }
  }

  method ParseIndex(text: string) returns (r: Result<IndexEntry, ParseError>)
    ensures r == ParsedIndex(text)
  {
    var lines := Lines(text);
    var f := IndexFields(None, None, None);
    var i := 0;
    while i < |lines|
      invariant 0 <= i <= |lines|
      invariant ParseIndexFields(lines[..i]) == Ok(f)
    {
      assert lines[..i + 1][..i] == lines[..i];
      match ParseIndexLine(f, lines[i]) {
        case Err(e) =>
          IndexErrorsPersist(lines, i + 1);
          return Err(e);
        case Ok(f') =>
          f := f';
      }
      i := i + 1;
    }
    assert lines[..i] == lines;
    if f.hash.None? || f.size.None? {
      return Err(MissingField);
    }
    r := Ok(IndexEntry(f.hash.value, f.size.value, if f.chunks.Some? then f.chunks.value else 0));
  }

  /** The index text the sync engine writes for a file. */
  function PrintIndex(hash: string, size: nat, chunks: nat): string
  {
    Unlines(["manifest_hash" + "=" + hash, "size" + "=" + Decimal(size), "chunks" + "=" + Decimal(chunks)])
  }

  lemma {:induction false} ParseIndexNext(lines: seq<string>, line: string, f: IndexFields)
    requires ParseIndexFields(lines) == Ok(f)
    ensures ParseIndexFields(lines + [line]) == ParseIndexLine(f, line)
  {
    assert (lines + [line])[..|lines|] == lines;
  }

  lemma ThreeLinesParse(l0: string, l1: string, l2: string, f1: IndexFields, f2: IndexFields, f3: IndexFields)
    requires ParseIndexLine(IndexFields(None, None, None), l0) == Ok(f1)
    requires ParseIndexLine(f1, l1) == Ok(f2) && ParseIndexLine(f2, l2) == Ok(f3)
    ensures ParseIndexFields([l0, l1, l2]) == Ok(f3)
  {
    ParseIndexNext([], l0, IndexFields(None, None, None));
    assert [] + [l0] == [l0];
    ParseIndexNext([l0], l1, f1);
    assert [l0] + [l1] == [l0, l1];
    ParseIndexNext([l0, l1], l2, f2);
    assert [l0, l1] + [l2] == [l0, l1, l2];
  }

  lemma HashLineParses(f: IndexFields, hash: string)
    ensures ParseIndexLine(f, "manifest_hash" + "=" + hash) == Ok(f.(hash := Some(hash)))
  {
    SplitJoined("manifest_hash", '=', hash);
  }

  lemma NumberLinesParse(f: IndexFields, n: U64)
    ensures ParseIndexLine(f, "size" + "=" + Decimal(n)) == Ok(f.(size := Some(n)))
    ensures ParseIndexLine(f, "chunks" + "=" + Decimal(n)) == Ok(f.(chunks := Some(n)))
  {
    ParsePrintedNumber(n);
    SplitJoined("size", '=', Decimal(n));
    SplitJoined("chunks", '=', Decimal(n));
  }

  lemma IndexLinesParse(hash: string, size: U64, chunks: U64)
    ensures ParseIndexFields(["manifest_hash" + "=" + hash, "size" + "=" + Decimal(size),
            "chunks" + "=" + Decimal(chunks)])
            == Ok(IndexFields(Some(hash), Some(size), Some(chunks)))
  {
    var f1 := IndexFields(Some(hash), None, None);
    var f2 := IndexFields(Some(hash), Some(size), None);
    var f3 := IndexFields(Some(hash), Some(size), Some(chunks));
    HashLineParses(IndexFields(None, None, None), hash);
    NumberLinesParse(f1, size);
    NumberLinesParse(f2, chunks);
    ThreeLinesParse("manifest_hash" + "=" + hash, "size" + "=" + Decimal(size), "chunks" + "=" + Decimal(chunks), f1,
      f2, f3);
  }

  lemma {:induction false} ParsedHashIsOneLine(lines: seq<string>)
    requires forall i | 0 <= i < |lines| :: OneLine(lines[i])
    ensures var r := ParseIndexFields(lines);
            r.Ok? && r.value.hash.Some? ==> OneLine(r.value.hash.value)
  {
    if lines != [] {
      ParsedHashIsOneLine(lines[..|lines| - 1]);
    }
  }

  lemma {:induction false} NumberLineStripped(key: string, n: U64)
    requires OneLine(key) && key != "" && key[|key| - 1] != '\r'
    ensures OneLine(key + Decimal(n)) && StripCr(key + Decimal(n)) == key + Decimal(n)
  {
    DecimalInverse(n);
    StripAfterKey(key, Decimal(n));
  }

  lemma IndexLinesStripped(e: IndexEntry)
    requires OneLine(e.manifestHash)
    ensures var lines := ["manifest_hash" + "=" + e.manifestHash, "size" + "=" + Decimal(e.size),
            "chunks" + "=" + Decimal(e.chunks)];
            && (forall i | 0 <= i < 3 :: OneLine(lines[i]))
            && Stripped(lines) == ["manifest_hash" + "=" + StripCr(e.manifestHash), "size" + "=" + Decimal(e.size),
              "chunks" + "=" + Decimal(e.chunks)]
  {
    StripAfterKey("manifest_hash" + "=", e.manifestHash);
    NumberLineStripped("size" + "=", e.size);
    NumberLineStripped("chunks" + "=", e.chunks);
  }

  /** The engine's index text is read back exactly by the driver, again up to the line-safety of the hash. */
  lemma IndexRoundTrip(e: IndexEntry)
    ensures ParsedIndex(PrintIndex(e.manifestHash, e.size, e.chunks)) == Ok(e) <==> LineSafe(e.manifestHash)
  {
    var lines := ["manifest_hash" + "=" + e.manifestHash, "size" + "=" + Decimal(e.size),
      "chunks" + "=" + Decimal(e.chunks)];
    var text := PrintIndex(e.manifestHash, e.size, e.chunks);
    LinesAreOneLine(text);
    ParsedHashIsOneLine(Lines(text));
    if OneLine(e.manifestHash) {
      IndexLinesStripped(e);
      LinesOfUnlines(lines);
      IndexLinesParse(StripCr(e.manifestHash), e.size, e.chunks);
    }
  }

  /** The printed index entry, written out. */
  lemma {:induction false} IndexIsPrintedAs(hash: string, size: nat, chunks: nat)
    ensures PrintIndex(hash, size, chunks) ==
            "manifest_hash" + "=" + hash + "\n" + ("size" + "=" + Decimal(size) + "\n" +
            ("chunks" + "=" + Decimal(chunks) + "\n"))
  {
    ThreeLines("manifest_hash" + "=" + hash, "size" + "=" + Decimal(size), "chunks" + "=" + Decimal(chunks));
  }
}
