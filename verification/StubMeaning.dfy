/** What the stub and index texts mean: which texts are accepted, what they say, and which error the others give, all
    stated on the lines themselves. */
module StubMeaning {
  import opened Basics
  import opened StubText

  // ---- Lines that mention a key ----

  /** The line gives a value for the key: the key, the separator, and the value. */
  predicate Mentions(line: string, key: string, sep: char)
  {
    key + [sep] <= line
  }

  function Rest(line: string, key: string, sep: char): string
    requires Mentions(line, key, sep)
  {
    line[|key| + 1..]
  }

  /** What the last line that mentions the key says. */
  function LastValue(lines: seq<string>, key: string, sep: char): Option<string>
  {
    if lines == [] then None
    else if Mentions(lines[|lines| - 1], key, sep) then Some(Rest(lines[|lines| - 1], key, sep))
    else LastValue(lines[..|lines| - 1], key, sep)
  }

  lemma {:induction false} LastValueIs(lines: seq<string>, key: string, sep: char, i: nat)
    requires i < |lines| && Mentions(lines[i], key, sep) && forall j | i < j < |lines| :: !Mentions(lines[j], key, sep)
    ensures LastValue(lines, key, sep) == Some(Rest(lines[i], key, sep))
  {
    if i < |lines| - 1 {
      LastValueIs(lines[..|lines| - 1], key, sep, i);
    }
  }

  lemma {:induction false} NoValueIff(lines: seq<string>, key: string, sep: char)
    ensures LastValue(lines, key, sep).None? <==> forall i | 0 <= i < |lines| :: !Mentions(lines[i], key, sep)
  {
    if lines != [] {
      NoValueIff(lines[..|lines| - 1], key, sep);
    }
  }

  /** A line mentions a key exactly if splitting it at its first separator gives that key. */
  lemma {:induction false} SplitIsMention(line: string, key: string, sep: char)
    requires sep !in key
    ensures var s := SplitOnce(line, sep);
            && (Mentions(line, key, sep) <==> s.Some? && s.value.0 == key)
            && (Mentions(line, key, sep) ==> s.value.1 == Rest(line, key, sep))
    ensures SplitOnce(line, sep).None? <==> sep !in line
  {
    var i := Find(line, sep);
    if Mentions(line, key, sep) {
      assert line[..|key|] == key && line[|key|] == sep;
      FindUnique(line, sep, |key|);
    }
    if i < |line| && line[..i] == key {
      assert line[..i + 1] == key + [sep];
    }
    if i == |line| {
      assert line[..i] == line;
    }
  }

  // ---- Stubs ----

  /** What is wrong with a line of a stub, if anything. */
  function LineFault(line: string): Option<ParseError>
  {
    if line == "" then None
    else if ' ' !in line then Some(NoSeparator)
    else if Mentions(line, "version", ' ') && Rest(line, "version", ' ') != STUB_VERSION then Some(UnsupportedVersion)
    else if Mentions(line, "chunks", ' ') && ParseU64(Rest(line, "chunks", ' ')).None? then Some(InvalidNumber)
    else if Mentions(line, "size", ' ') && ParseU64(Rest(line, "size", ' ')).None? then Some(InvalidNumber)
    else None
  }

  function NumberIn(v: Option<string>): Option<U64>
  {
    if v.None? then None else ParseU64(v.value)
  }

  function FlagIn(v: Option<string>): Option<bool>
  {
    if v.None? then None else Some(v.value != "0")
  }

  /** What the lines say last about each key. */
  datatype Said = Said(version: Option<string>, chunks: Option<string>, compressed: Option<string>,
                       fetched: Option<string>, oid: Option<string>, origin: Option<string>, size: Option<string>)

  function SaidBy(lines: seq<string>): Said
  {
    Said(LastValue(lines, "version", ' '), LastValue(lines, "chunks", ' '), LastValue(lines, "compressed", ' '),
         LastValue(lines, "fetched", ' '), LastValue(lines, "oid", ' '), LastValue(lines, "origin", ' '),
         LastValue(lines, "size", ' '))
  }

  /** What is said when one more line gives this value for this key. */
  function Heard(s: Said, key: string, value: string): Said
  {
    var v := Some(value);
    if key == "version" then s.(version := v)
    else if key == "chunks" then s.(chunks := v)
    else if key == "compressed" then s.(compressed := v)
    else if key == "fetched" then s.(fetched := v)
    else if key == "oid" then s.(oid := v)
    else if key == "origin" then s.(origin := v)
    else if key == "size" then s.(size := v)
    else s
  }

  /** The fields hold what is said last. */
  predicate Gathers(f: Fields, s: Said)
  {
    && (f.version <==> s.version.Some?) && f.chunks == NumberIn(s.chunks) && f.size == NumberIn(s.size)
    && f.compressed == FlagIn(s.compressed) && f.fetched == FlagIn(s.fetched)
    && f.oid == s.oid && f.origin == s.origin
  }

  /** What is wrong with giving this value for this key. */
  function ValueFault(key: string, value: string): Option<ParseError>
  {
    if key == "version" && value != STUB_VERSION then Some(UnsupportedVersion)
    else if (key == "chunks" || key == "size") && ParseU64(value).None? then Some(InvalidNumber)
    else None
  }

  /** Setting the field of a key from a value gathers that value, or reports what is wrong with it. */
  predicate SetsRight(f: Fields, s: Said, key: string, value: string)
  {
    var r, fault := SetField(f, key, value), ValueFault(key, value);
    if fault.Some? then r == Err(fault.value) else r.Ok? && Gathers(r.value, Heard(s, key, value))
  }

  lemma {:induction false} GatherVersion(f: Fields, s: Said, value: string)
    requires Gathers(f, s)
    ensures SetsRight(f, s, "version", value)
  {
  }

  lemma {:induction false} GatherChunks(f: Fields, s: Said, value: string)
    requires Gathers(f, s)
    ensures SetsRight(f, s, "chunks", value)
  {
  }

  lemma {:induction false} GatherCompressed(f: Fields, s: Said, value: string)
    requires Gathers(f, s)
    ensures SetsRight(f, s, "compressed", value)
  {
  }

  lemma {:induction false} GatherFetched(f: Fields, s: Said, value: string)
    requires Gathers(f, s)
    ensures SetsRight(f, s, "fetched", value)
  {
  }

  lemma {:induction false} GatherOid(f: Fields, s: Said, value: string)
    requires Gathers(f, s)
    ensures SetsRight(f, s, "oid", value)
  {
  }

  lemma {:induction false} GatherOrigin(f: Fields, s: Said, value: string)
    requires Gathers(f, s)
    ensures SetsRight(f, s, "origin", value)
  {
  }

  lemma {:induction false} GatherSize(f: Fields, s: Said, value: string)
    requires Gathers(f, s)
    ensures SetsRight(f, s, "size", value)
  {
  }

  lemma {:induction false} GatherOther(f: Fields, s: Said, key: string, value: string)
    requires Gathers(f, s) && !KnownKey(key)
    ensures SetsRight(f, s, key, value)
  {
  }

  lemma {:induction false} GatherValue(f: Fields, s: Said, key: string, value: string)
    requires Gathers(f, s)
    ensures SetsRight(f, s, key, value)
  {
    if key == "version" {
      GatherVersion(f, s, value);
    } else if key == "chunks" {
      GatherChunks(f, s, value);
    } else if key == "compressed" {
      GatherCompressed(f, s, value);
    } else if key == "fetched" {
      GatherFetched(f, s, value);
    } else if key == "oid" {
      GatherOid(f, s, value);
    } else if key == "origin" {
      GatherOrigin(f, s, value);
    } else if key == "size" {
      GatherSize(f, s, value);
    } else {
      GatherOther(f, s, key, value);
    }
  }

  lemma {:induction false} HeardAt(front: seq<string>, line: string, key: string, sep: char)
    requires sep !in key
    ensures var s := SplitOnce(line, sep);
            LastValue(front + [line], key, sep) ==
            if s.Some? && s.value.0 == key then Some(s.value.1) else LastValue(front, key, sep)
  {
    assert (front + [line])[..|front|] == front;
    SplitIsMention(line, key, sep);
  }

  lemma {:induction false} SaidMore(front: seq<string>, line: string)
    ensures var s := SplitOnce(line, ' ');
            SaidBy(front + [line]) == if s.Some? then Heard(SaidBy(front), s.value.0, s.value.1) else SaidBy(front)
  {
    HeardAt(front, line, "version", ' ');
    HeardAt(front, line, "chunks", ' ');
    HeardAt(front, line, "compressed", ' ');
    HeardAt(front, line, "fetched", ' ');
    HeardAt(front, line, "oid", ' ');
    HeardAt(front, line, "origin", ' ');
    HeardAt(front, line, "size", ' ');
  }

  lemma {:induction false} FaultOfSplit(line: string)
    requires SplitOnce(line, ' ').Some?
    ensures line != "" && LineFault(line) == ValueFault(SplitOnce(line, ' ').value.0, SplitOnce(line, ' ').value.1)
  {
    SplitIsMention(line, "version", ' ');
    SplitIsMention(line, "chunks", ' ');
    SplitIsMention(line, "size", ' ');
  }

  lemma {:induction false} GatherLine(f: Fields, front: seq<string>, line: string)
    requires Gathers(f, SaidBy(front))
    ensures var r := ParseLine(f, line);
            if LineFault(line).Some? then r == Err(LineFault(line).value)
            else r.Ok? && Gathers(r.value, SaidBy(front + [line]))
  {
    SaidMore(front, line);
    SplitIsMention(line, "oid", ' ');
    if SplitOnce(line, ' ').Some? {
      var (key, value) := SplitOnce(line, ' ').value;
      FaultOfSplit(line);
      GatherValue(f, SaidBy(front), key, value);
    }
  }

  lemma {:induction false} GatherFields(lines: seq<string>)
    requires forall i | 0 <= i < |lines| :: LineFault(lines[i]).None?
    ensures ParseFields(lines).Ok? && Gathers(ParseFields(lines).value, SaidBy(lines))
  {
    if lines != [] {
      var front, line := lines[..|lines| - 1], lines[|lines| - 1];
      GatherFields(front);
      GatherLine(ParseFields(front).value, front, line);
      assert front + [line] == lines;
    }
  }

  /** A stub is accepted, and read as this metadata, exactly if no line is faulty, the version is given, and each field
      is what the last line about it says: the origin, the object id and the size must be given, the rest need not. */
  lemma {:induction false} StubMeans(lines: seq<string>, m: StubMeta)
    ensures ParseLines(lines) == Ok(m) <==>
            && (forall i | 0 <= i < |lines| :: LineFault(lines[i]).None?)
            && LastValue(lines, "version", ' ').Some?
            && LastValue(lines, "oid", ' ') == Some(m.oid) && LastValue(lines, "origin", ' ') == Some(m.origin)
            && NumberIn(LastValue(lines, "size", ' ')) == Some(m.size)
            && m.chunks == (var n := NumberIn(LastValue(lines, "chunks", ' ')); if n.Some? then n.value else 0)
            && (m.compressed <==> FlagIn(LastValue(lines, "compressed", ' ')) == Some(true))
            && (m.fetched <==> FlagIn(LastValue(lines, "fetched", ' ')) == Some(true))
  {
    if i :| 0 <= i < |lines| && LineFault(lines[i]).Some? {
      var j := FirstFault(lines, i);
      FaultIsReported(lines, j);
    } else {
      GatherFields(lines);
    }
  }

  lemma {:induction false} FirstFault(lines: seq<string>, i: nat) returns (j: nat)
    requires i < |lines| && LineFault(lines[i]).Some?
    ensures j <= i && LineFault(lines[j]).Some? && forall k | 0 <= k < j :: LineFault(lines[k]).None?
  {
    j := i;
    if k :| 0 <= k < i && LineFault(lines[k]).Some? {
      j := FirstFault(lines, k);
    }
  }

  /** The first faulty line decides the error. */
  lemma {:induction false} FaultIsReported(lines: seq<string>, j: nat)
    requires j < |lines| && LineFault(lines[j]).Some? && forall k | 0 <= k < j :: LineFault(lines[k]).None?
    ensures ParseLines(lines) == Err(LineFault(lines[j]).value)
  {
    var front := lines[..j];
    GatherFields(front);
    GatherLine(ParseFields(front).value, front, lines[j]);
    assert lines[..j + 1][..j] == front;
    ErrorsPersist(lines, j + 1);
  }

  /** Without a faulty line it is a missing version, and then a missing field. */
  lemma {:induction false} MissingIsReported(lines: seq<string>)
    requires forall i | 0 <= i < |lines| :: LineFault(lines[i]).None?
    ensures ParseLines(lines) == Err(MissingVersion) <==> LastValue(lines, "version", ' ').None?
    ensures ParseLines(lines) == Err(MissingField) <==>
            LastValue(lines, "version", ' ').Some? &&
            (LastValue(lines, "oid", ' ').None? || LastValue(lines, "origin", ' ').None? ||
             NumberIn(LastValue(lines, "size", ' ')).None?)
  {
    GatherFields(lines);
  }

  // ---- Index entries ----

  predicate IndexFaulty(line: string)
  {
    || (Mentions(line, "size", '=') && ParseU64(Rest(line, "size", '=')).None?)
    || (Mentions(line, "chunks", '=') && ParseU64(Rest(line, "chunks", '=')).None?)
  }

  ghost predicate AnyFaulty(lines: seq<string>)
  {
    exists i :: 0 <= i < |lines| && IndexFaulty(lines[i])
  }

  predicate GathersIndex(f: IndexFields, lines: seq<string>)
  {
    && f.hash == LastValue(lines, "manifest_hash", '=')
    && f.size == NumberIn(LastValue(lines, "size", '=')) && f.chunks == NumberIn(LastValue(lines, "chunks", '='))
  }

  lemma {:induction false} GatherIndexLine(f: IndexFields, front: seq<string>, line: string)
    requires GathersIndex(f, front)
    ensures var r := ParseIndexLine(f, line);
            if IndexFaulty(line) then r == Err(InvalidNumber) else r.Ok? && GathersIndex(r.value, front + [line])
  {
    HeardAt(front, line, "manifest_hash", '=');
    HeardAt(front, line, "size", '=');
    HeardAt(front, line, "chunks", '=');
    SplitIsMention(line, "size", '=');
    SplitIsMention(line, "chunks", '=');
  }

  lemma {:induction false} GatherIndexFields(lines: seq<string>)
    ensures var r := ParseIndexFields(lines);
            if AnyFaulty(lines) then r == Err(InvalidNumber)
            else r.Ok? && GathersIndex(r.value, lines)
  {
    if lines != [] {
      var front, line := lines[..|lines| - 1], lines[|lines| - 1];
      GatherIndexFields(front);
      assert front + [line] == lines;
      if r: IndexFields :| ParseIndexFields(front) == Ok(r) {
        GatherIndexLine(r, front, line);
      }
    }
  }

  /** An index text is accepted, and read as this entry, exactly if no number in it is faulty and the last lines about
      them give the hash and the size; the chunk count may be missing. */
  lemma {:induction false} IndexMeans(text: string, e: IndexEntry)
    ensures var lines := Lines(text);
            ParsedIndex(text) == Ok(e) <==>
            && (forall i | 0 <= i < |lines| :: !IndexFaulty(lines[i]))
            && LastValue(lines, "manifest_hash", '=') == Some(e.manifestHash)
            && NumberIn(LastValue(lines, "size", '=')) == Some(e.size)
            && e.chunks == (var n := NumberIn(LastValue(lines, "chunks", '=')); if n.Some? then n.value else 0)
  {
    GatherIndexFields(Lines(text));
  }

  /** Otherwise the error is a faulty number if there is one, and a missing field if not. */
  lemma {:induction false} IndexFails(text: string)
    requires ParsedIndex(text).Err?
    ensures var lines := Lines(text);
            ParsedIndex(text) == Err(if AnyFaulty(lines) then InvalidNumber else MissingField)
  {
    GatherIndexFields(Lines(text));
  }
}
