/** Slugs and pack keys of external vendors (configs/external_vendor_intake.go). */
module PackKeys {
  import opened Text
  import opened Sequences

  const SLUG_LIMIT := 55

  predicate IsSlugChar(c: char) {
    'a' <= c <= 'z' || IsDigit(c)
  }

  /** Runs of other characters become one dash each. */
  function Dashed(s: string, lastDash: bool): string {
    if s == [] then []
    else if IsSlugChar(s[0]) then [s[0]] + Dashed(s[1..], false)
    else if lastDash then Dashed(s[1..], true)
    else "-" + Dashed(s[1..], true)
  }

  /** The value of `externalVendorSlug`. */
  function Slug(value: string): string {
    var folded := Strip(IsDash, Dashed(Lower(Trim(value)), false));
    var out := if folded == "" then "vendor" else folded;
    if |out| > SLUG_LIMIT then Strip(IsDash, out[..SLUG_LIMIT]) else out
  }

  /** Lower-case letters, digits and single inner dashes. */
  ghost predicate SlugText(s: string) {
    && (forall i :: 0 <= i < |s| ==> IsSlugChar(s[i]) || s[i] == '-')
    && (forall i :: 0 <= i < |s| - 1 ==> !(s[i] == '-' && s[i + 1] == '-'))
  }

  /** `externalVendorSlug` as it runs. */
  method ExternalVendorSlug(value: string) returns (out: string)
    ensures out == Slug(value)
    ensures 1 <= |out| <= SLUG_LIMIT && SlugText(out) && CleanEnds(IsDash, out)
  {
    var folded := Lower(Trim(value));
    var built := "";
    var lastDash := false;
    assert folded[0..] == folded;
    for i := 0 to |folded|
      invariant built + Dashed(folded[i..], lastDash) == Dashed(folded, false)
    {
      assert folded[i..][1..] == folded[i + 1..];
      if IsSlugChar(folded[i]) {
        assert built + ([folded[i]] + Dashed(folded[i + 1..], false)) == (built + [folded[i]])
               + Dashed(folded[i + 1..], false);
        built := built + [folded[i]];
        lastDash := false;
      } else if !lastDash {
        assert built + ("-" + Dashed(folded[i + 1..], true)) == (built + "-") + Dashed(folded[i + 1..], true);
        built := built + "-";
        lastDash := true;
      }
    }
    assert folded[|folded|..] == [] && built + [] == built;
    out := Strip(IsDash, built);
    if out == "" {
      out := "vendor";
    }
    if |out| > SLUG_LIMIT {
      out := Strip(IsDash, out[..SLUG_LIMIT]);
    }
    SlugShape(value);
  }

  lemma {:induction false} DashedShape(s: string, lastDash: bool)
    ensures SlugText(Dashed(s, lastDash))
    ensures lastDash && Dashed(s, lastDash) != "" ==> Dashed(s, lastDash)[0] != '-'
  {
    if s != [] {
      DashedShape(s[1..], if IsSlugChar(s[0]) then false else true);
    }
  }

  lemma {:induction false} SliceShape(s: string, lo: nat, hi: nat)
    requires lo <= hi <= |s| && SlugText(s)
    ensures SlugText(s[lo..hi])
  {
    var t := s[lo..hi];
    forall i | 0 <= i < |t| - 1 ensures !(t[i] == '-' && t[i + 1] == '-') {
      assert !(s[lo + i] == '-' && s[lo + i + 1] == '-');
    }
  }

  lemma {:induction false} StripShape(s: string)
    requires SlugText(s)
    ensures SlugText(Strip(IsDash, s)) && CleanEnds(IsDash, Strip(IsDash, s)) && |Strip(IsDash, s)| <= |s|
    ensures s != "" && s[0] != '-' ==> Strip(IsDash, s) != ""
  {
    var lo, hi := StripFacts(IsDash, s);
    SliceShape(s, lo, hi);
    assert s != "" && (0 < lo || hi <= 0) ==> IsDash(s[0]);
  }

  /** Every slug is 1 to 55 characters over a-z, 0-9 and single inner dashes. */
  lemma {:induction false} SlugShape(value: string)
    ensures var s := Slug(value); 1 <= |s| <= SLUG_LIMIT && SlugText(s) && CleanEnds(IsDash, s)
  {
    var raw := Dashed(Lower(Trim(value)), false);
    DashedShape(Lower(Trim(value)), false);
    StripShape(raw);
    var out := if Strip(IsDash, raw) == "" then "vendor" else Strip(IsDash, raw);
    if |out| > SLUG_LIMIT {
      SliceShape(out, 0, SLUG_LIMIT);
      assert out[0..SLUG_LIMIT] == out[..SLUG_LIMIT];
      StripShape(out[..SLUG_LIMIT]);
    }
  }

  lemma {:induction false} DashedFixed(s: string, lastDash: bool)
    requires SlugText(s) && (lastDash && s != "" ==> s[0] != '-')
    ensures Dashed(s, lastDash) == s
  {
    if s != [] {
      assert SlugText(s[1..]) by {
        assert s[1..] == s[1..|s|];
        SliceShape(s, 1, |s|);
      }
      if |s| > 1 {
        assert !(s[0] == '-' && s[0 + 1] == '-');
      }
      DashedFixed(s[1..], !IsSlugChar(s[0]));
    }
  }

  lemma {:induction false} SlugFixed(s: string)
    requires 1 <= |s| <= SLUG_LIMIT && SlugText(s) && CleanEnds(IsDash, s)
    ensures Slug(s) == s
  {
    forall i | 0 <= i < |s| ensures LowerChar(s[i]) == s[i] && !IsSpace(s[i]) {
    }
    assert Lower(s) == s;
    StripFixed(IsSpace, s);
    DashedFixed(s, false);
    StripFixed(IsDash, s);
  }

  /** Slugs are fixed points: a slug names the same pack as the vendor it came from. */
  lemma {:induction false} SlugIdempotent(value: string)
    ensures Slug(Slug(value)) == Slug(value)
  {
    SlugShape(value);
    SlugFixed(Slug(value));
  }

  // ----- nothing but separators is lost

  lemma {:induction false} DashedKeepsLetters(s: string, lastDash: bool)
    ensures Filter(IsSlugChar, Dashed(s, lastDash)) == Filter(IsSlugChar, s)
  {
    if s != [] {
      var next := !IsSlugChar(s[0]);
      DashedKeepsLetters(s[1..], next);
      if next && !lastDash {
        assert ("-" + Dashed(s[1..], true))[1..] == Dashed(s[1..], true);
      } else if !next {
        assert ([s[0]] + Dashed(s[1..], false))[1..] == Dashed(s[1..], false);
      }
    }
  }

  lemma {:induction false} StripKeepsLetters(s: string)
    ensures Filter(IsSlugChar, Strip(IsDash, s)) == Filter(IsSlugChar, s)
  {
    var lo, hi := StripFacts(IsDash, s);
    assert s == s[..lo] + s[lo..hi] + s[hi..];
    FilterConcat(IsSlugChar, s[..lo] + s[lo..hi], s[hi..]);
    FilterConcat(IsSlugChar, s[..lo], s[lo..hi]);
    FilterNone(IsSlugChar, s[..lo]);
    FilterNone(IsSlugChar, s[hi..]);
  }

  /** Short of the length limit, a slug keeps every letter and digit of the name, in order. */
  lemma {:induction false} SlugKeepsLetters(value: string)
    requires Filter(IsSlugChar, Lower(Trim(value))) != []
    ensures var all := Filter(IsSlugChar, Lower(Trim(value)));
            Filter(IsSlugChar, Slug(value)) <= all
              && (|Slug(value)| < SLUG_LIMIT - 1 ==> Filter(IsSlugChar, Slug(value)) == all)
  {
    var raw := Dashed(Lower(Trim(value)), false);
    var out := Strip(IsDash, raw);
    DashedKeepsLetters(Lower(Trim(value)), false);
    StripKeepsLetters(raw);
    assert out != "";
    if |out| > SLUG_LIMIT {
      var cut := out[..SLUG_LIMIT];
      assert out == cut + out[SLUG_LIMIT..];
      FilterConcat(IsSlugChar, cut, out[SLUG_LIMIT..]);
      StripKeepsLetters(cut);
      DashedShape(Lower(Trim(value)), false);
      StripShape(raw);
      CutLosesOne(out);
    }
  }

  /** Cutting a slug text at the limit removes at most one dash more. */
  lemma {:induction false} CutLosesOne(out: string)
    requires |out| > SLUG_LIMIT && SlugText(out) && CleanEnds(IsDash, out)
    ensures |Strip(IsDash, out[..SLUG_LIMIT])| >= SLUG_LIMIT - 1
  {
    var cut := out[..SLUG_LIMIT];
    var lo, hi := StripFacts(IsDash, cut);
    assert !IsDash(cut[0]);
    assert !(out[SLUG_LIMIT - 2] == '-' && out[SLUG_LIMIT - 2 + 1] == '-');
    assert hi < SLUG_LIMIT - 1 ==> IsDash(cut[SLUG_LIMIT - 2]) && IsDash(cut[SLUG_LIMIT - 1]);
  }

  // ----- pack keys

  /** The pattern `^[a-z0-9][a-z0-9-]{1,62}$` after trimming. */
  predicate ValidPackKey(value: string) {
    var t := Trim(value);
    && 2 <= |t| <= 63 && IsSlugChar(t[0])
    && forall i :: 1 <= i < |t| ==> IsSlugChar(t[i]) || t[i] == '-'
  }

  function DerivedPackKey(vendor: string): string {
    "external-" + Slug(vendor)
  }

  /** `externalVendorIntakePackKey`. */
  function PackKey(input: string, vendor: string): string {
    var key := if Blank(input) then DerivedPackKey(vendor) else Lower(Trim(input));
    if ValidPackKey(key) then key else DerivedPackKey(vendor)
  }

  /** A derived key fits the pattern exactly for slugs of at most 54 characters. */
  lemma {:induction false} DerivedKeyExactly(vendor: string)
    ensures ValidPackKey(DerivedPackKey(vendor)) <==> |Slug(vendor)| <= SLUG_LIMIT - 1
  {
    SlugShape(vendor);
    var slug := Slug(vendor);
    var key := "external-" + slug;
    assert |key| == 9 + |slug|;
    assert key[0] == 'e' && key[|key| - 1] == slug[|slug| - 1];
    StripFixed(IsSpace, key);
    forall i | 1 <= i < |key| ensures IsSlugChar(key[i]) || key[i] == '-' {
      if i >= 9 {
        assert key[i] == slug[i - 9];
      }
    }
  }

  /** So the key of an intake fits exactly when the requested key does or the slug is short enough. */
  lemma {:induction false} PackKeyExactly(input: string, vendor: string)
    ensures ValidPackKey(PackKey(input, vendor))
       <==> (!Blank(input) && ValidPackKey(Lower(Trim(input)))) || |Slug(vendor)| <= SLUG_LIMIT - 1
  {
    DerivedKeyExactly(vendor);
  }

  /** With a requested key that is absent or valid, the key fits exactly when one was requested or the
      slug is short enough. */
  lemma {:induction false} RequestedKeyExactly(input: string, vendor: string)
    requires Blank(input) || ValidPackKey(input)
    ensures ValidPackKey(PackKey(input, vendor)) <==> !Blank(input) || |Slug(vendor)| <= SLUG_LIMIT - 1
  {
    PackKeyExactly(input, vendor);
    if !Blank(input) {
      TrimTrim(input);
      var t := Trim(input);
      forall i | 0 <= i < |t| ensures LowerChar(t[i]) == t[i] {
        assert i == 0 || 1 <= i;
      }
      assert Lower(t) == t;
    }
  }

  /** The boundary is reached: a vendor of 55 letters gets a key that its own pattern rejects. */
  lemma {:induction false} BoundaryVendor()
    ensures var vendor := seq(55, _ => 'a'); |Slug(vendor)| == 55 && !ValidPackKey(PackKey("", vendor))
  {
    var vendor := seq(55, _ => 'a');
    SlugFixed(vendor);
    assert Blank("");
    PackKeyExactly("", vendor);
  }
}
