/** A manifest the organizer can write and not read back: an encoding that meets every promise asked of JSON, and a
    record in which it leaves a line separator as it is. */
module ManifestWitness {
  import opened Basics
  import opened Manifest

  /** A text that ends itself: each character announced, then a full stop. */
  function Framed(s: string): string {
    if s == "" then "." else ['-', s[0]] + Framed(s[1..])
  }

  function Encoded(r: Record): string {
    (if r.path.None? then "{0" else "{1" + Framed(r.path.value)) + Framed(r.fields)
  }

  lemma {:induction false} FramesEndThemselves(s: string, t: string, x: string, y: string)
    requires Framed(s) + x == Framed(t) + y
    ensures s == t && x == y
  {
    var (a, b) := (Framed(s) + x, Framed(t) + y);
    assert a[0] == Framed(s)[0] && b[0] == Framed(t)[0];
    if s == "" {
      assert t == "";
      assert a[1..] == x && b[1..] == y;
    } else {
      assert t != "";
      assert a[1] == s[0] && b[1] == t[0];
      assert a[2..] == Framed(s[1..]) + x && b[2..] == Framed(t[1..]) + y;
      FramesEndThemselves(s[1..], t[1..], x, y);
      assert s == [s[0]] + s[1..] && t == [t[0]] + t[1..];
    }
  }

  /** The first two characters tell whether a path follows. */
  lemma EncodedTail(r: Record, x: string)
    ensures var a := Encoded(r) + x;
      && |a| > 2 && (r.path.None? <==> a[1] == '0')
      && a[2..] == (if r.path.None? then "" else Framed(r.path.value)) + (Framed(r.fields) + x)
  {
    var a := Encoded(r) + x;
    assert a[1] == Encoded(r)[1];
    if r.path.None? {
      assert a[2..] == "" + (Framed(r.fields) + x);
    } else {
      assert a[2..] == Framed(r.path.value) + (Framed(r.fields) + x);
    }
  }

  lemma EncodingsEndThemselves(q: Record, r: Record, x: string, y: string)
    requires Encoded(q) + x == Encoded(r) + y
    ensures q == r && x == y
  {
    hide Encoded, Framed;
    EncodedTail(q, x);
    EncodedTail(r, y);
    var (f, g) := (Framed(q.fields) + x, Framed(r.fields) + y);
    if q.path.None? {
      assert "" + f == f && "" + g == g;
    } else {
      FramesEndThemselves(q.path.value, r.path.value, f, g);
    }
    FramesEndThemselves(q.fields, r.fields, x, y);
  }

  ghost predicate Encodes(s: string) {
    exists r :: Encoded(r) == s
  }

  ghost function Decode(s: string): Decoded {
    if Encodes(s) then (var r :| Encoded(r) == s; Object(r)) else Malformed
  }

  lemma DecodesWhole(r: Record)
    ensures Decode(Encoded(r)) == Object(r)
  {
    var s := Encoded(r);
    assert Encodes(s);
    var q :| Encoded(q) == s && Decode(s) == Object(q);
    assert s + "" == s;
    EncodingsEndThemselves(q, r, "", "");
  }

  lemma DecodesNoPart(r: Record, n: nat)
    requires n < |Encoded(r)|
    ensures Decode(Encoded(r)[..n]) == Malformed
  {
    var s := Encoded(r);
    if Encodes(s[..n]) {
      var q :| Encoded(q) == s[..n];
      assert Encoded(q) + s[n..] == s + "";
      EncodingsEndThemselves(q, r, s[n..], "");
    }
  }

  ghost function Witness(): Codec {
    Codec(Encoded, Decode, s => s == "")
  }

  lemma WitnessIsJson()
    ensures IsJson(Witness())
  {
    var codec := Witness();
    forall r ensures codec.encode(r) != "" && codec.decode(codec.encode(r)) == Object(r) { DecodesWhole(r); }
    forall r, n: nat | 0 < n < |codec.encode(r)| ensures codec.decode(codec.encode(r)[..n]) == Malformed {
      DecodesNoPart(r, n);
    }
    forall r ensures codec.encode(r)[0] !in BREAKS { assert Encoded(r)[0] == '{'; }
  }

  /** The title "\u2028": written without complaint, and the next read of the manifest raises. */
  lemma ALineSeparatorMakesTheManifestUnreadable() returns (codec: Codec, r: Record)
    ensures IsJson(codec) && r.fields == "\U{2028}" && !Unbroken(codec.encode(r))
    ensures ReadManifest(codec, ManifestText(codec, [r])).None?
  {
    codec, r := Witness(), Record(Some("a/video.mp4"), "\U{2028}");
    WitnessIsJson();
    var (line, path) := (Encoded(r), Framed("a/video.mp4"));
    assert line == "{1" + path + Framed("\U{2028}");
    assert Framed("\U{2028}")[1] == '\U{2028}';
    assert line[|path| + 3] == '\U{2028}';
    assert r in [r] && !Unbroken(codec.encode(r));
    ManifestRoundTrip(codec, [r]);
  }
}
