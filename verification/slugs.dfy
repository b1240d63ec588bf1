/**
 * generateSlug of the product controller: lower-case, fold the Turkish
 * letters to ASCII, drop everything outside [a-z0-9\s-], turn each run of
 * white space into '-', squeeze runs of '-', and trim.
 */
module Slugs {
  import opened Text

  /** The characters a slug is made of: [a-z0-9-]. */
  predicate SlugChar(c: char)
  {
    IsAsciiLower(c) || IsDigit(c) || c == '-'
  }

  /** The characters the third replace keeps: [a-z0-9\s-]. */
  predicate Kept(c: char)
  {
    IsAsciiLower(c) || IsDigit(c) || IsSpace(c) || c == '-'
  }

  predicate NoDoubleHyphen(s: string)
  {
    forall i :: 0 <= i < |s| - 1 ==> !(s[i] == '-' && s[i + 1] == '-')
  }

  /** Every character is a slug character. */
  predicate SlugChars(s: string)
  {
    forall i :: 0 <= i < |s| ==> SlugChar(s[i])
  }

  /** What generateSlug returns on its own output: slug characters, no "--". */
  predicate SlugShaped(s: string)
  {
    SlugChars(s) && NoDoubleHyphen(s)
  }

  /** The replacement of [çğıöşü] by c g i o s u. */
  function Transliterate(c: char): (r: char)
    ensures c !in "çğıöşü" ==> r == c
  {
    if c == 'ç' then 'c'
    else if c == 'ğ' then 'g'
    else if c == 'ı' then 'i'
    else if c == 'ö' then 'o'
    else if c == 'ş' then 's'
    else if c == 'ü' then 'u'
    else c
  }

  /** The four replaces of the Turkish letters, over the whole string. */
  function TransliterateAll(s: string): (r: string)
    ensures |r| == |s|
    ensures forall i :: 0 <= i < |r| ==> r[i] !in "çğıöşü"
    ensures forall i :: 0 <= i < |s| && s[i] !in "çğıöşü" ==> r[i] == s[i]
  {
    seq(|s|, i requires 0 <= i < |s| => Transliterate(s[i]))
  }

  /** Where each Turkish letter goes: the j-th of ç ğ ı ö ş ü becomes the j-th of c g i o s u, wherever it stands. */
  lemma TransliterateTargets(s: string, i: nat, j: nat)
    requires i < |s| && j < 6 && s[i] == "çğıöşü"[j]
    ensures TransliterateAll(s)[i] == "cgiosu"[j]
  {
  }

  /** The six letters together: TransliterateAll("çğıöşü") == "cgiosu". */
  lemma TurkishLettersFold()
    ensures TransliterateAll("çğıöşü") == "cgiosu"
  {
  }

  /** .replace(/[^a-z0-9\s-]/g, '') */
  function KeepAllowed(s: string): (r: string)
    ensures |r| <= |s|
    ensures AllKept(r)
    ensures AllKept(s) ==> r == s
  {
    if s == [] then []
    else (if Kept(s[0]) then [s[0]] else []) + KeepAllowed(s[1..])
  }

  /** The third replace works character by character: the result for a
      concatenation is the concatenation of the results. With KeepAllowedChar
      this fixes the result on every input: the allowed characters, in order. */
  lemma {:induction false} KeepAllowedSplits(a: string, b: string)
    ensures KeepAllowed(a + b) == KeepAllowed(a) + KeepAllowed(b)
    decreases |a|
  {
    if a == [] {
      assert a + b == b;
    } else {
      var head := if Kept(a[0]) then [a[0]] else [];
      assert (a + b)[1..] == a[1..] + b;
      assert KeepAllowed(a + b) == head + KeepAllowed(a[1..] + b);
      KeepAllowedSplits(a[1..], b);
      assert KeepAllowed(a) == head + KeepAllowed(a[1..]);
      assert head + (KeepAllowed(a[1..]) + KeepAllowed(b)) == (head + KeepAllowed(a[1..])) + KeepAllowed(b);
    }
  }

  /** A single character is kept exactly when it is in [a-z0-9\s-]. */
  lemma {:induction false} KeepAllowedChar(c: char)
    ensures KeepAllowed([c]) == if Kept(c) then [c] else []
  {
    assert [c][1..] == [];
  }

  /** Every character survives the third replace. */
  predicate AllKept(s: string)
  {
    forall i :: 0 <= i < |s| ==> Kept(s[i])
  }

  function SkipSpaces(s: string): (r: string)
    ensures |r| <= |s|
    ensures r == [] || !IsSpace(r[0])
    ensures AllKept(s) ==> AllKept(r)
  {
    if s != [] && IsSpace(s[0]) then SkipSpaces(s[1..]) else s
  }

  /** .replace(/\s+/g, '-') */
  function CollapseSpaces(s: string): (r: string)
    ensures AllKept(s) ==> SlugChars(r)
    decreases |s|
  {
    if s == [] then []
    else if IsSpace(s[0]) then "-" + CollapseSpaces(SkipSpaces(s[1..]))
    else [s[0]] + CollapseSpaces(s[1..])
  }

  /** Without white space there is nothing to replace. */
  lemma {:induction false} CollapseSpacesFixed(s: string)
    requires forall i :: 0 <= i < |s| ==> !IsSpace(s[i])
    ensures CollapseSpaces(s) == s
  {
    if s != [] {
      CollapseSpacesFixed(s[1..]);
    }
  }

  predicate NoSpace(s: string)
  {
    forall i :: 0 <= i < |s| ==> !IsSpace(s[i])
  }

  predicate AllSpace(s: string)
  {
    forall i :: 0 <= i < |s| ==> IsSpace(s[i])
  }

  /** Text without white space passes through the replace unchanged, whatever follows it. */
  lemma {:induction false} CollapseSpacesKeepsText(a: string, b: string)
    requires NoSpace(a)
    ensures CollapseSpaces(a + b) == a + CollapseSpaces(b)
    decreases |a|
  {
    if a == [] {
      assert a + b == b;
    } else {
      assert (a + b)[1..] == a[1..] + b;
      CollapseSpacesKeepsText(a[1..], b);
    }
  }

  lemma {:induction false} SkipSpacesRun(a: string, b: string)
    requires AllSpace(a) && (b == [] || !IsSpace(b[0]))
    ensures SkipSpaces(a + b) == b
    decreases |a|
  {
    if a == [] {
      assert a + b == b;
    } else {
      assert (a + b)[1..] == a[1..] + b;
      SkipSpacesRun(a[1..], b);
    }
  }

  /** A whole run of white space, up to the next other character, becomes exactly one '-'. */
  lemma {:induction false} CollapseSpacesRun(a: string, b: string)
    requires a != [] && AllSpace(a) && (b == [] || !IsSpace(b[0]))
    ensures CollapseSpaces(a + b) == "-" + CollapseSpaces(b)
  {
    assert (a + b)[1..] == a[1..] + b;
    SkipSpacesRun(a[1..], b);
  }

  function SkipHyphens(s: string): (r: string)
    ensures |r| <= |s| && r == s[|s| - |r|..]
    ensures r == [] || r[0] != '-'
  {
    if s != [] && s[0] == '-' then SkipHyphens(s[1..]) else s
  }

  /** .replace(/-+/g, '-') */
  function CollapseHyphens(s: string): (r: string)
    ensures NoDoubleHyphen(r)
    ensures s != [] ==> r != [] && r[0] == s[0]
    ensures SlugChars(s) ==> SlugChars(r)
    decreases |s|
  {
    if s == [] then []
    else if s[0] == '-' then "-" + CollapseHyphens(SkipHyphens(s[1..]))
    else [s[0]] + CollapseHyphens(s[1..])
  }

  /** Without a run of hyphens there is nothing to squeeze. */
  lemma {:induction false} CollapseHyphensFixed(s: string)
    requires NoDoubleHyphen(s)
    ensures CollapseHyphens(s) == s
  {
    if s != [] {
      assert NoDoubleHyphen(s[1..]);
      CollapseHyphensFixed(s[1..]);
    }
  }

  predicate NoHyphen(s: string)
  {
    forall i :: 0 <= i < |s| ==> s[i] != '-'
  }

  predicate AllHyphens(s: string)
  {
    forall i :: 0 <= i < |s| ==> s[i] == '-'
  }

  /** Text without '-' passes through the replace unchanged, whatever follows it. */
  lemma {:induction false} CollapseHyphensKeepsText(a: string, b: string)
    requires NoHyphen(a)
    ensures CollapseHyphens(a + b) == a + CollapseHyphens(b)
    decreases |a|
  {
    if a == [] {
      assert a + b == b;
    } else {
      assert (a + b)[1..] == a[1..] + b;
      CollapseHyphensKeepsText(a[1..], b);
    }
  }

  lemma {:induction false} SkipHyphensRun(a: string, b: string)
    requires AllHyphens(a) && (b == [] || b[0] != '-')
    ensures SkipHyphens(a + b) == b
    decreases |a|
  {
    if a == [] {
      assert a + b == b;
    } else {
      assert (a + b)[1..] == a[1..] + b;
      SkipHyphensRun(a[1..], b);
    }
  }

  /** A whole run of '-', up to the next other character, becomes exactly one '-'. */
  lemma {:induction false} CollapseHyphensRun(a: string, b: string)
    requires a != [] && AllHyphens(a) && (b == [] || b[0] != '-')
    ensures CollapseHyphens(a + b) == "-" + CollapseHyphens(b)
  {
    assert (a + b)[1..] == a[1..] + b;
    SkipHyphensRun(a[1..], b);
  }

  function TrimStart(s: string): (r: string)
    ensures |r| <= |s|
    ensures s != [] && !IsSpace(s[0]) ==> r == s
  {
    if s != [] && IsSpace(s[0]) then TrimStart(s[1..]) else s
  }

  function TrimEnd(s: string): (r: string)
    ensures |r| <= |s|
    ensures s != [] && !IsSpace(s[|s| - 1]) ==> r == s
  {
    if s != [] && IsSpace(s[|s| - 1]) then TrimEnd(s[..|s| - 1]) else s
  }

  /** .trim('-'): trim takes no argument, so this strips white space, not hyphens. */
  function Trim(s: string): (r: string)
    ensures |r| <= |s|
    ensures (forall i :: 0 <= i < |s| ==> !IsSpace(s[i])) ==> r == s
  {
    TrimEnd(TrimStart(s))
  }

  function GenerateSlug(name: string): (slug: string)
    ensures SlugShaped(slug)
  {
    var kept := KeepAllowed(TransliterateAll(ToLower(name)));
    var squeezed := CollapseHyphens(CollapseSpaces(kept));
    assert forall i :: 0 <= i < |squeezed| ==> !IsSpace(squeezed[i]) by {
      assert SlugChars(squeezed);
    }
    Trim(squeezed)
  }

  /** Slugging a slug gives it back unchanged. */
  lemma {:induction false} SlugFixedPoint(s: string)
    requires SlugShaped(s)
    ensures GenerateSlug(s) == s
  {
    assert ToLower(s) == s;
    assert TransliterateAll(s) == s;
    assert forall i :: 0 <= i < |s| ==> Kept(s[i]) && !IsSpace(s[i]);
    assert KeepAllowed(s) == s;
    CollapseSpacesFixed(s);
    CollapseHyphensFixed(s);
  }

  lemma {:induction false} GenerateSlugIdempotent(name: string)
    ensures GenerateSlug(GenerateSlug(name)) == GenerateSlug(name)
  {
    SlugFixedPoint(GenerateSlug(name));
  }

  /** The letters a single word may be made of: ASCII letters and digits and the
      Turkish letters in both cases. */
  predicate WordChar(c: char)
  {
    IsAsciiLower(c) || IsAsciiUpper(c) || IsDigit(c) || c in "çğıöşüÇĞÖŞÜ"
  }

  /** The letter a word character becomes: lower-cased, then folded to ASCII. */
  function FoldLetter(c: char): char
  {
    Transliterate(LowerChar(c))
  }

  lemma FoldLetterAscii(c: char)
    requires WordChar(c)
    ensures IsAsciiLower(FoldLetter(c)) || IsDigit(FoldLetter(c))
  {
  }

  /** A word with each letter folded. */
  function FoldWord(w: string): (r: string)
    ensures |r| == |w|
  {
    seq(|w|, i requires 0 <= i < |w| => FoldLetter(w[i]))
  }

  predicate IsWord(w: string)
  {
    forall i :: 0 <= i < |w| ==> WordChar(w[i])
  }

  /** The first two steps fold a word letter by letter into slug letters. */
  lemma {:induction false} FoldedWord(w: string)
    requires IsWord(w)
    ensures TransliterateAll(ToLower(w)) == FoldWord(w)
    ensures forall i :: 0 <= i < |w| ==> IsAsciiLower(FoldWord(w)[i]) || IsDigit(FoldWord(w)[i])
  {
    forall i | 0 <= i < |w|
      ensures IsAsciiLower(FoldWord(w)[i]) || IsDigit(FoldWord(w)[i])
    {
      FoldLetterAscii(w[i]);
    }
  }

  /** A single word is lower-cased and transliterated letter by letter and loses
      nothing: "Çiğdem" becomes "cigdem". */
  lemma {:induction false} WordSlug(w: string)
    requires IsWord(w)
    ensures GenerateSlug(w) == FoldWord(w)
  {
    var folded := FoldWord(w);
    FoldedWord(w);
    assert AllKept(folded);
    assert KeepAllowed(folded) == folded;
    assert NoDoubleHyphen(folded);
    CollapseSpacesFixed(folded);
    CollapseHyphensFixed(folded);
    assert Trim(folded) == folded;
  }

  /** White space before a word survives as a leading '-' (" Kalem" becomes
      "-kalem"), because trim runs after the white space has become '-' and
      takes away white space only. */
  lemma {:induction false} LeadingSpaceKeepsHyphen(w: string)
    requires w != [] && IsWord(w)
    ensures GenerateSlug(" " + w) == "-" + FoldWord(w)
  {
    assert IsWord([]) && AllSpace(" ");
    TwoWordSlug([], " ", w);
    assert [] + " " + w == " " + w;
    assert FoldWord([]) + "-" + FoldWord(w) == "-" + FoldWord(w);
  }


  /** Once the first two steps are known to give text the third replace keeps
      whole, the slug is the last three steps applied to that text. */
  lemma {:induction false} SlugOfFolded(name: string, folded: string)
    requires TransliterateAll(ToLower(name)) == folded && AllKept(folded)
    ensures GenerateSlug(name) == Trim(CollapseHyphens(CollapseSpaces(folded)))
  {
  }

  /** Slug letters with single hyphens pass the last two steps unchanged. */
  lemma {:induction false} TrimUnbroken(s: string)
    requires NoDoubleHyphen(s) && NoSpace(s)
    ensures Trim(CollapseHyphens(s)) == s
  {
    CollapseHyphensFixed(s);
  }

  /** White space between the lower-case and transliterate steps is left as it is. */
  lemma {:induction false} SpaceFolds(c: char)
    requires IsSpace(c)
    ensures Transliterate(LowerChar(c)) == c
  {
  }

  /** The lower-case and transliterate steps fold the words and leave the white space. */
  lemma {:induction false} FoldAroundSpace(w1: string, sp: string, w2: string)
    requires IsWord(w1) && IsWord(w2) && AllSpace(sp)
    ensures TransliterateAll(ToLower(w1 + sp + w2)) == FoldWord(w1) + sp + FoldWord(w2)
  {
    var x := w1 + sp + w2;
    var folded := FoldWord(w1) + sp + FoldWord(w2);
    forall i | 0 <= i < |x|
      ensures TransliterateAll(ToLower(x))[i] == folded[i]
    {
      if i < |w1| {
        assert x[i] == w1[i];
      } else if i < |w1| + |sp| {
        assert x[i] == sp[i - |w1|];
        SpaceFolds(sp[i - |w1|]);
      } else {
        assert x[i] == w2[i - |w1| - |sp|];
      }
    }
  }

  /** The white space between two pieces without white space becomes one '-'. */
  lemma {:induction false} CollapseBetween(f1: string, sp: string, f2: string)
    requires NoSpace(f1) && NoSpace(f2) && f2 != []
    requires sp != [] && AllSpace(sp)
    ensures CollapseSpaces(f1 + sp + f2) == f1 + "-" + f2
  {
    assert f1 + sp + f2 == f1 + (sp + f2);
    CollapseSpacesKeepsText(f1, sp + f2);
    CollapseSpacesRun(sp, f2);
    CollapseSpacesFixed(f2);
  }

  /** Two words with white space between them: the run becomes one '-' and each
      word is folded, so "Kırmızı Kalem" becomes "kirmizi-kalem". */
  lemma {:induction false} TwoWordSlug(w1: string, sp: string, w2: string)
    requires w2 != [] && IsWord(w1) && IsWord(w2)
    requires sp != [] && AllSpace(sp)
    ensures GenerateSlug(w1 + sp + w2) == FoldWord(w1) + "-" + FoldWord(w2)
  {
    FoldAroundSpace(w1, sp, w2);
    FoldedPiecesKept(w1, sp, w2);
    SlugOfFolded(w1 + sp + w2, FoldWord(w1) + sp + FoldWord(w2));
    FoldedPiecesJoin(w1, sp, w2);
  }

  lemma {:induction false} FoldedPiecesKept(w1: string, sp: string, w2: string)
    requires IsWord(w1) && IsWord(w2) && AllSpace(sp)
    ensures AllKept(FoldWord(w1) + sp + FoldWord(w2))
  {
    FoldedWord(w1);
    FoldedWord(w2);
  }

  /** The last three steps turn two folded words around white space into the
      words joined by one '-'. */
  lemma {:induction false} FoldedPiecesJoin(w1: string, sp: string, w2: string)
    requires w2 != [] && IsWord(w1) && IsWord(w2)
    requires sp != [] && AllSpace(sp)
    ensures var joined := FoldWord(w1) + "-" + FoldWord(w2);
            Trim(CollapseHyphens(CollapseSpaces(FoldWord(w1) + sp + FoldWord(w2)))) == joined
  {
    var f1, f2 := FoldWord(w1), FoldWord(w2);
    var joined := f1 + "-" + f2;
    FoldedWord(w1);
    FoldedWord(w2);
    CollapseBetween(f1, sp, f2);
    assert NoDoubleHyphen(joined) && NoSpace(joined);
    TrimUnbroken(joined);
  }


}
