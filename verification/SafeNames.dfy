/** The organizer's directory names (src/kanomori/source_organizer.py): what cleaning a title keeps. */
module SafeNames {
  import opened Organizer

  /** What the proofs need of white space: a blank is, lower-case letters are not. */
  ghost predicate Sensible(w: World) {
    w.space(' ') && forall c | 'a' <= c <= 'z' :: !w.space(c)
  }

  /** White space is single blanks only; after says whether one stands before s. */
  ghost predicate Single(w: World, s: string, after: bool) {
    s == "" || if w.space(s[0]) then s[0] == ' ' && !after && Single(w, s[1..], true) else Single(w, s[1..], false)
  }

  /** A directory name that needs no cleaning. */
  ghost predicate IsSafe(w: World, s: string) {
    && s != "" && (forall c | c in s :: !IsReserved(c))
    && s[0] !in " ." && s[|s| - 1] !in " ."
    && Single(w, s, false)
  }

  /** The characters that carry the title: neither reserved, nor white space, nor dots. */
  function Letters(w: World, s: string): string {
    if s == "" then ""
    else (if IsReserved(s[0]) || w.space(s[0]) || s[0] == '.' then "" else [s[0]]) + Letters(w, s[1..])
  }

  lemma {:induction false} CollapsedIsSingle(w: World, s: string, after: bool)
    requires w.space(' ') && forall c | c in s :: !IsReserved(c)
    ensures Single(w, Collapsed(w, s, after), after)
  {
    if s != "" {
      forall c | c in s[1..] ensures !IsReserved(c) { assert c in s; }
      var rest := Collapsed(w, s[1..], w.space(s[0]));
      CollapsedIsSingle(w, s[1..], w.space(s[0]));
      if !w.space(s[0]) {
        assert ([s[0]] + rest)[1..] == rest;
      } else if !after {
        assert ([' '] + rest)[1..] == rest;
      }
    }
  }

  lemma {:induction false} SingleIsKept(w: World, s: string, after: bool)
    requires Single(w, s, after) && forall c | c in s :: !IsReserved(c)
    ensures Collapsed(w, s, after) == s
  {
    if s != "" {
      forall c | c in s[1..] ensures !IsReserved(c) { assert c in s; }
      SingleIsKept(w, s[1..], w.space(s[0]));
      assert [s[0]] + s[1..] == s;
    }
  }

  lemma {:induction false} UnreservedIsKept(s: string)
    requires forall c | c in s :: !IsReserved(c)
    ensures Replaced(s) == s
  {
    if s != "" {
      assert s[0] in s;
      forall c | c in s[1..] ensures !IsReserved(c) { assert c in s; }
      UnreservedIsKept(s[1..]);
      assert [s[0]] + s[1..] == s;
    }
  }

  lemma {:induction false} SingleWithout(w: World, s: string, after: bool)
    requires Single(w, s, after)
    ensures Single(w, s, false)
    ensures s != "" ==> Single(w, s[1..], false) && Single(w, s[..|s| - 1], after)
  {
    if s != "" {
      SingleWithout(w, s[1..], w.space(s[0]));
      if |s| > 1 {
        assert s[..|s| - 1][1..] == s[1..][..|s| - 2];
      }
    }
  }

  lemma {:induction false} StrippedIsSingle(w: World, s: string)
    requires Single(w, s, false)
    ensures Single(w, Stripped(s), false)
  {
    if s != "" {
      SingleWithout(w, s, false);
      if s[0] in " ." { StrippedIsSingle(w, s[1..]); }
      else if s[|s| - 1] in " ." { StrippedIsSingle(w, s[..|s| - 1]); }
    }
  }

  /** Cleaning always gives a safe name, and leaves exactly the safe names as they are. */
  lemma CleaningIsProjection(w: World, s: string)
    requires Sensible(w)
    ensures IsSafe(w, SafeComponent(w, s))
    ensures SafeComponent(w, s) == s <==> IsSafe(w, s)
  {
    CollapsedIsSingle(w, Replaced(s), false);
    StrippedIsSingle(w, Collapsed(w, Replaced(s), false));
    UntitledIsSingle(w);
    if IsSafe(w, s) {
      UnreservedIsKept(s);
      SingleIsKept(w, s, false);
    }
  }

  lemma {:induction false} UntitledIsSingle(w: World)
    requires Sensible(w)
    ensures Single(w, "untitled", false)
  {
    LettersAreSingle(w, "untitled");
  }

  lemma {:induction false} LettersAreSingle(w: World, s: string)
    requires Sensible(w) && forall c | c in s :: 'a' <= c <= 'z'
    ensures Single(w, s, false)
  {
    if s != "" {
      assert s[0] in s;
      forall c | c in s[1..] ensures 'a' <= c <= 'z' { assert c in s; }
      LettersAreSingle(w, s[1..]);
    }
  }

  lemma {:induction false} LettersOfSum(w: World, a: string, b: string)
    ensures Letters(w, a + b) == Letters(w, a) + Letters(w, b)
  {
    if a == "" {
      assert a + b == b;
    } else {
      assert (a + b)[1..] == a[1..] + b;
      LettersOfSum(w, a[1..], b);
    }
  }

  lemma {:induction false} ReplacedLetters(w: World, s: string)
    requires w.space(' ')
    ensures Letters(w, Replaced(s)) == Letters(w, s)
  {
    if s != "" {
      ReplacedLetters(w, s[1..]);
      assert Replaced(s)[1..] == Replaced(s[1..]);
    }
  }

  lemma {:induction false} CollapsedLetters(w: World, s: string, after: bool)
    requires w.space(' ') && forall c | c in s :: !IsReserved(c)
    ensures Letters(w, Collapsed(w, s, after)) == Letters(w, s)
  {
    if s != "" {
      forall c | c in s[1..] ensures !IsReserved(c) { assert c in s; }
      var rest := Collapsed(w, s[1..], w.space(s[0]));
      CollapsedLetters(w, s[1..], w.space(s[0]));
      assert ([s[0]] + rest)[1..] == rest && ([' '] + rest)[1..] == rest;
    }
  }

  lemma {:induction false} StrippedLetters(w: World, s: string)
    requires w.space(' ')
    ensures Letters(w, Stripped(s)) == Letters(w, s)
  {
    if s == "" {
    } else if s[0] in " ." {
      StrippedLetters(w, s[1..]);
    } else if s[|s| - 1] in " ." {
      var (rest, last) := (s[..|s| - 1], [s[|s| - 1]]);
      StrippedLetters(w, rest);
      LettersOfSum(w, rest, last);
      assert rest + last == s && last[1..] == "";
    }
  }

  /** Cleaning keeps every other character of the title, in order; a title without any becomes "untitled". */
  lemma CleaningKeepsLetters(w: World, s: string)
    requires w.space(' ')
    ensures Letters(w, s) != "" ==> Letters(w, SafeComponent(w, s)) == Letters(w, s)
    ensures SafeComponent(w, s) == "untitled" || Letters(w, SafeComponent(w, s)) == Letters(w, s)
  {
    ReplacedLetters(w, s);
    CollapsedLetters(w, Replaced(s), false);
    StrippedLetters(w, Collapsed(w, Replaced(s), false));
  }

  /** The characters that no directory name has. */
  lemma NoReservedCharacter(w: World, s: string, i: nat)
    requires i < |SafeComponent(w, s)|
    ensures SafeComponent(w, s)[i] !in ['/', '\\', ':', '*', '?', '"', '<', '>', '|']
    ensures SafeComponent(w, s)[i] >= '\U{20}'
  {
    assert SafeComponent(w, s)[i] in SafeComponent(w, s);
    assert RESERVED == ['/', '\\', ':', '*', '?', '"', '<', '>', '|'];
  }
}
