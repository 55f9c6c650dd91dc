/** The JSON-lines manifest, written and read back (src/kanomori/source_organizer.py). */
module Manifest {
  import opened Basics

  /** A JSON object: its path, which may be missing or empty, and the rest of its fields. */
  datatype Record = Record(path: Option<string>, fields: string)

  datatype Decoded = Malformed | NotAnObject | Object(record: Record)

  /** json.dumps, json.loads, and the test for a blank line. */
  datatype Codec = Codec(encode: Record -> string, decode: string -> Decoded, blank: string -> bool)

  /** The characters at which str.splitlines breaks a line. */
  const BREAKS: set<char> :=
    {'\U{0A}', '\U{0D}', '\U{0B}', '\U{0C}', '\U{1C}', '\U{1D}', '\U{1E}', '\U{85}', '\U{2028}', '\U{2029}'}

  /** Index of the first line break, or the length. */
  function LineEnd(text: string): (n: nat)
    ensures n <= |text|
    ensures forall i | 0 <= i < n :: text[i] !in BREAKS
    ensures n < |text| ==> text[n] in BREAKS
  {
    if text == "" || text[0] in BREAKS then 0
    else
      var n := LineEnd(text[1..]);
      assert forall i | 0 < i <= n :: text[i] == text[1..][i - 1];
      n + 1
  }

  /** Where the next line starts: a carriage return and line feed together are one break. */
  function NextLine(text: string): (n: nat)
    requires text != ""
    ensures 0 < n <= |text|
  {
    var end := LineEnd(text);
    if end == |text| then end
    else if text[end] == '\U{0D}' && end + 1 < |text| && text[end + 1] == '\U{0A}' then end + 2
    else end + 1
  }

  function SplitLines(text: string): seq<string>
    decreases |text|
  {
    if text == "" then [] else [text[..LineEnd(text)]] + SplitLines(text[NextLine(text)..])
  }

  /** The records of the lines; None is the ValueError of a malformed line. */
  function Parsed(codec: Codec, lines: seq<string>): Option<seq<Record>> {
    if lines == [] then Some([])
    else
      var rest := Parsed(codec, lines[1..]);
      if codec.blank(lines[0]) then rest
      else
        match codec.decode(lines[0])
        case Malformed => None
        case NotAnObject => rest
        case Object(r) => if rest.None? then None else Some([r] + rest.value)
  }

  function ReadManifest(codec: Codec, text: string): Option<seq<Record>> {
    Parsed(codec, SplitLines(text))
  }

  method ReadLines(codec: Codec, text: string) returns (records: Option<seq<Record>>)
    ensures records == ReadManifest(codec, text)
  {
    var lines := SplitLines(text);
    var read: seq<Record> := [];
    assert lines[0..] == lines;
    assert forall rest: seq<Record> :: [] + rest == rest;
    for i := 0 to |lines|
      invariant Parsed(codec, lines) == After(read, Parsed(codec, lines[i..]))
    {
      assert lines[i..][1..] == lines[i + 1..];
      if !codec.blank(lines[i]) {
        match codec.decode(lines[i])
        case Malformed => return None;
        case NotAnObject =>
        case Object(r) =>
          ghost var rest := Parsed(codec, lines[i + 1..]);
          assert rest.Some? ==> read + ([r] + rest.value) == (read + [r]) + rest.value;
          read := read + [r];
      }
    }
    assert lines[|lines|..] == [] && read + [] == read;
    records := Some(read);
  }

  function After(read: seq<Record>, rest: Option<seq<Record>>): Option<seq<Record>> {
    if rest.None? then None else Some(read + rest.value)
  }

  function Joined(lines: seq<string>): string {
    if lines == [] then ""
    else if |lines| == 1 then lines[0]
    else lines[0] + "\n" + Joined(lines[1..])
  }

  function ManifestText(codec: Codec, records: seq<Record>): string {
    var lines := seq(|records|, i requires 0 <= i < |records| => codec.encode(records[i]));
    Joined(lines) + (if lines == [] then "" else "\n")
  }

  /** What JSON promises: objects decode to themselves, none is blank, no proper prefix of one is a JSON text. */
  ghost predicate IsJson(codec: Codec) {
    && (forall r :: codec.encode(r) != "" && codec.decode(codec.encode(r)) == Object(r))
    && (forall r, n: nat | 0 < n <= |codec.encode(r)| :: !codec.blank(codec.encode(r)[..n]))
    && (forall r, n: nat | 0 < n < |codec.encode(r)| :: codec.decode(codec.encode(r)[..n]) == Malformed)
    && (forall r :: codec.encode(r)[0] !in BREAKS)
  }

  predicate Unbroken(s: string) {
    forall i | 0 <= i < |s| :: s[i] !in BREAKS
  }

  lemma {:induction false} TextStep(codec: Codec, records: seq<Record>)
    requires records != []
    ensures ManifestText(codec, records) == codec.encode(records[0]) + "\n" + ManifestText(codec, records[1..])
  {
    var lines := seq(|records|, i requires 0 <= i < |records| => codec.encode(records[i]));
    var rest := seq(|records| - 1, i requires 0 <= i < |records| - 1 => codec.encode(records[1..][i]));
    assert lines[1..] == rest;
  }

  lemma FirstLine(enc: string, rest: string)
    requires Unbroken(enc)
    ensures SplitLines(enc + "\n" + rest) == [enc] + SplitLines(rest)
  {
    var text := enc + "\n" + rest;
    assert text[|enc|] == '\n';
    assert forall i | 0 <= i < |enc| :: text[i] == enc[i];
    assert LineEnd(text) == |enc|;
    assert text[..|enc|] == enc && text[|enc| + 1..] == rest;
  }

  lemma BrokenLine(enc: string, rest: string)
    requires !Unbroken(enc)
    ensures LineEnd(enc) < |enc| && SplitLines(enc + rest) != [] && SplitLines(enc + rest)[0] == enc[..LineEnd(enc)]
  {
    var (text, n) := (enc + rest, LineEnd(enc));
    assert n < |enc|;
    assert text[n] == enc[n];
    assert forall i | 0 <= i < n :: text[i] == enc[i];
    assert LineEnd(text) == n;
    assert text[..n] == enc[..n];
  }

  /** A manifest reads back as the records written exactly when no encoded record contains a line break. */
  lemma {:induction false} ManifestRoundTrip(codec: Codec, records: seq<Record>)
    requires IsJson(codec)
    ensures ReadManifest(codec, ManifestText(codec, records)) == Some(records)
      <==> forall r | r in records :: Unbroken(codec.encode(r))
    ensures ReadManifest(codec, ManifestText(codec, records)).None?
      <==> exists r | r in records :: !Unbroken(codec.encode(r))
  {
    if records != [] {
      hide ManifestText, SplitLines, Parsed, IsJson, Unbroken;
      var (r, rest) := (records[0], records[1..]);
      TextStep(codec, records);
      ManifestRoundTrip(codec, rest);
      assert records == [r] + rest;
      if Unbroken(codec.encode(r)) {
        FirstReads(codec, r, ManifestText(codec, rest));
      } else {
        FirstFails(codec, r, ManifestText(codec, rest));
      }
    } else {
      hide IsJson, Unbroken;
    }
  }

  lemma FirstReads(codec: Codec, r: Record, rest: string)
    requires IsJson(codec) && Unbroken(codec.encode(r))
    ensures ReadManifest(codec, codec.encode(r) + "\n" + rest) == After([r], ReadManifest(codec, rest))
  {
    hide SplitLines, Unbroken;
    var enc := codec.encode(r);
    FirstLine(enc, rest);
    assert enc[..|enc|] == enc;
    assert ([enc] + SplitLines(rest))[1..] == SplitLines(rest);
  }

  lemma FirstFails(codec: Codec, r: Record, rest: string)
    requires IsJson(codec) && !Unbroken(codec.encode(r))
    ensures ReadManifest(codec, codec.encode(r) + "\n" + rest).None?
  {
    hide SplitLines, Unbroken;
    var enc := codec.encode(r);
    BrokenLine(enc, "\n" + rest);
    assert enc + ("\n" + rest) == enc + "\n" + rest;
    assert LineEnd(enc) > 0;
  }

  // Lines, said of characters

  /** A character splits two lines exactly when it is one of the ten, and a carriage return and line feed split once. */
  lemma TenCharactersBreakLines(a: string, c: char, b: string)
    requires Unbroken(a) && Unbroken(b) && b != ""
    ensures SplitLines(a + [c] + b) ==
      if c in "\U{0A}\U{0B}\U{0C}\U{0D}\U{1C}\U{1D}\U{1E}\U{85}\U{2028}\U{2029}" then [a, b] else [a + [c] + b]
    ensures SplitLines(a + "\r\n" + b) == [a, b] && SplitLines(a + "\r\n") == [a]
  {
    OneLine(b);
    EndsWithBoth(a);
    BreakAt(a, "\r\n", b);
    if c in BREAKS { BreakAt(a, [c], b); } else { OneLine(a + [c] + b); }
  }

  lemma EndsWithBoth(a: string)
    requires Unbroken(a)
    ensures SplitLines(a + "\r\n") == [a]
  {
    var text := a + "\r\n";
    assert forall i | 0 <= i < |a| :: text[i] == a[i];
    assert text[|a|] == '\r' && text[|a| + 1] == '\n' && LineEnd(text) == |a|;
    assert text[..|a|] == a && text[|a| + 2..] == "";
  }

  lemma OneLine(s: string)
    requires Unbroken(s) && s != ""
    ensures SplitLines(s) == [s]
  {
    assert LineEnd(s) == |s| && s[..|s|] == s && s[|s|..] == "";
  }

  lemma BreakAt(a: string, c: string, b: string)
    requires Unbroken(a) && Unbroken(b) && b != ""
    requires c == "\r\n" || (|c| == 1 && c[0] in BREAKS)
    ensures SplitLines(a + c + b) == [a] + SplitLines(b)
  {
    var text := a + c + b;
    assert forall i | 0 <= i < |a| :: text[i] == a[i];
    assert text[|a|] == c[0] && LineEnd(text) == |a|;
    assert text[|a| + 1] == if |c| == 2 then '\n' else b[0];
    assert text[..|a|] == a && text[|a| + |c|..] == b;
  }

  /** The records of two parts are those of the one and then those of the other; one that is malformed spoils both. */
  lemma {:induction false} ReadsInOrder(codec: Codec, a: seq<string>, b: seq<string>)
    ensures Parsed(codec, a + b) ==
      if Parsed(codec, a).None? then None else After(Parsed(codec, a).value, Parsed(codec, b))
    ensures Parsed(codec, []) == Some([])
  {
    if a == [] {
      assert a + b == b;
      assert forall s: seq<Record> :: [] + s == s;
    } else {
      assert (a + b)[1..] == a[1..] + b;
      ReadsInOrder(codec, a[1..], b);
      var (x, y) := (Parsed(codec, a[1..]), Parsed(codec, b));
      if x.Some? && y.Some? { assert forall r: Record :: [r] + x.value + y.value == [r] + (x.value + y.value); }
    }
  }

  /** A blank line and a JSON value that is no object say nothing, an object is its record, anything else raises. */
  lemma OneLineReads(codec: Codec, line: string)
    ensures codec.blank(line) || codec.decode(line) == NotAnObject ==> Parsed(codec, [line]) == Some([])
    ensures !codec.blank(line) && codec.decode(line).Object? ==> Parsed(codec, [line]) == Some([codec.decode(line).record])
    ensures !codec.blank(line) && codec.decode(line) == Malformed ==> Parsed(codec, [line]) == None
  {
    assert [line][1..] == [] && Parsed(codec, []) == Some([]);
    assert forall r: Record :: [r] + [] == [r];
  }
}
