/** The text operations the dictionary engine is built on: trimming, case folding, splitting,
    joining and field scanning, written for ASCII text. Every other module uses these. */
module Text {

  predicate IsSpace(c: char) {
    c == ' ' || '\t' <= c <= '\r'
  }

  predicate IsDash(c: char) {
    c == '-'
  }

  predicate IsDigit(c: char) {
    '0' <= c <= '9'
  }

  function LowerChar(c: char): char {
    if 'A' <= c <= 'Z' then (c as int + 32) as char else c
  }

  function Lower(s: string): (r: string)
    ensures |r| == |s|
  {
    seq(|s|, i requires 0 <= i < |s| => LowerChar(s[i]))
  }

  /** `strings.EqualFold` on ASCII text. */
  predicate EqualFold(a: string, b: string) {
    Lower(a) == Lower(b)
  }

  function StripLeft(p: char -> bool, s: string): string {
    if s != [] && p(s[0]) then StripLeft(p, s[1..]) else s
  }

  function StripRight(p: char -> bool, s: string): string {
    if s != [] && p(s[|s| - 1]) then StripRight(p, s[..|s| - 1]) else s
  }

  function Strip(p: char -> bool, s: string): string {
    StripRight(p, StripLeft(p, s))
  }

  /** `strings.TrimSpace`. */
  function Trim(s: string): string {
    Strip(IsSpace, s)
  }

  predicate Blank(s: string) {
    Trim(s) == ""
  }

  /** Both ends are outside `p`: exactly the texts that stripping leaves alone. */
  predicate CleanEnds(p: char -> bool, s: string) {
    s == [] || (!p(s[0]) && !p(s[|s| - 1]))
  }

  predicate Contains(s: string, sub: string) {
    sub <= s || (s != [] && Contains(s[1..], sub))
  }

  predicate ContainsAny(s: string, tokens: seq<string>) {
    exists i | 0 <= i < |tokens| :: Contains(s, tokens[i])
  }

  /** `strings.Split` on a one-character separator: never empty. */
  function Split(s: string, sep: char): (r: seq<string>)
    ensures |r| >= 1
  {
    if s == [] then [[]]
    else
      var r := Split(s[1..], sep);
      if s[0] == sep then [[]] + r else [[s[0]] + r[0]] + r[1..]
  }

  function Join(parts: seq<string>, sep: char): string {
    if parts == [] then ""
    else if |parts| == 1 then parts[0]
    else parts[0] + [sep] + Join(parts[1..], sep)
  }

  /** Length of the leading run of non-space characters. */
  function WordLength(s: string): (n: nat)
    ensures n <= |s|
    ensures forall i :: 0 <= i < n ==> !IsSpace(s[i])
    ensures n < |s| ==> IsSpace(s[n])
  {
    if s == [] || IsSpace(s[0]) then 0 else 1 + WordLength(s[1..])
  }

  /** `strings.Fields`: the maximal runs of non-space characters. */
  function Fields(s: string): seq<string>
    decreases |s|
  {
    if s == [] then []
    else if IsSpace(s[0]) then Fields(s[1..])
    else var n := WordLength(s); [s[..n]] + Fields(s[n..])
  }

  /** A non-empty word without spaces, which trimming leaves alone. */
  predicate IsWord(s: string) {
    s != [] && forall c <- s :: !IsSpace(c)
  }

  /** Everything before the first `#`. */
  function StripComment(line: string): string {
    if line == [] || line[0] == '#' then [] else [line[0]] + StripComment(line[1..])
  }

  /** `strings.TrimSuffix(s, ",")`: at most one trailing comma. */
  function TrimComma(s: string): string {
    if s != [] && s[|s| - 1] == ',' then s[..|s| - 1] else s
  }

  /** Byte-wise order on texts, as Go's `<`. */
  predicate Less(a: string, b: string) {
    if b == [] then false
    else if a == [] then true
    else if a[0] != b[0] then a[0] < b[0]
    else Less(a[1..], b[1..])
  }

  // ----- case folding

  lemma {:induction false} LowerLower(s: string)
    ensures Lower(Lower(s)) == Lower(s)
  {
  }

  lemma {:induction false} LowerConcat(a: string, b: string)
    ensures Lower(a + b) == Lower(a) + Lower(b)
  {
  }

  // ----- stripping

  lemma {:induction false} StripLeftFacts(p: char -> bool, s: string)
    ensures |StripLeft(p, s)| <= |s| && StripLeft(p, s) == s[|s| - |StripLeft(p, s)|..]
    ensures StripLeft(p, s) != [] ==> !p(StripLeft(p, s)[0])
    ensures forall i :: 0 <= i < |s| - |StripLeft(p, s)| ==> p(s[i])
  {
    if s != [] && p(s[0]) {
      StripLeftFacts(p, s[1..]);
      var t := StripLeft(p, s[1..]);
      assert StripLeft(p, s) == t;
      assert t == s[1..][|s| - 1 - |t|..] == s[|s| - |t|..];
      forall i | 0 <= i < |s| - |t| ensures p(s[i]) {
        assert i > 0 ==> s[i] == s[1..][i - 1];
      }
    } else {
      assert StripLeft(p, s) == s;
    }
  }

  lemma {:induction false} StripRightFacts(p: char -> bool, s: string)
    ensures |StripRight(p, s)| <= |s| && StripRight(p, s) == s[..|StripRight(p, s)|]
    ensures StripRight(p, s) != [] ==> !p(StripRight(p, s)[|StripRight(p, s)| - 1])
    ensures forall i :: |StripRight(p, s)| <= i < |s| ==> p(s[i])
  {
    if s != [] && p(s[|s| - 1]) {
      var init := s[..|s| - 1];
      StripRightFacts(p, init);
      var t := StripRight(p, init);
      assert StripRight(p, s) == t;
      assert t == init[..|t|] == s[..|t|];
      forall i | |t| <= i < |s| ensures p(s[i]) {
        assert i < |s| - 1 ==> s[i] == init[i];
      }
    } else {
      assert StripRight(p, s) == s;
    }
  }

  /** A stripped text is a slice of the original with clean ends, and everything cut away was in `p`. */
  lemma {:induction false} StripFacts(p: char -> bool, s: string) returns (lo: nat, hi: nat)
    ensures lo <= hi <= |s| && Strip(p, s) == s[lo..hi]
    ensures CleanEnds(p, Strip(p, s))
    ensures forall i :: 0 <= i < lo || hi <= i < |s| ==> p(s[i])
  {
    StripLeftFacts(p, s);
    var t := StripLeft(p, s);
    StripRightFacts(p, t);
    lo := |s| - |t|;
    hi := lo + |Strip(p, s)|;
    forall i | hi <= i < |s| ensures p(s[i]) {
      assert s[i] == t[i - lo];
    }
  }

  lemma {:induction false} StripFixed(p: char -> bool, s: string)
    requires CleanEnds(p, s)
    ensures Strip(p, s) == s
  {
  }

  lemma {:induction false} StripTwice(p: char -> bool, s: string)
    ensures Strip(p, Strip(p, s)) == Strip(p, s)
  {
    var _, _ := StripFacts(p, s);
    StripFixed(p, Strip(p, s));
  }

  lemma {:induction false} TrimTrim(s: string)
    ensures Trim(Trim(s)) == Trim(s)
    ensures CleanEnds(IsSpace, Trim(s))
    ensures |Trim(s)| <= |s|
  {
    var _, _ := StripFacts(IsSpace, s);
    StripTwice(IsSpace, s);
  }

  lemma {:induction false} LowerStripLeft(s: string)
    ensures StripLeft(IsSpace, Lower(s)) == Lower(StripLeft(IsSpace, s))
  {
    if s != [] && IsSpace(s[0]) {
      assert Lower(s)[1..] == Lower(s[1..]);
      LowerStripLeft(s[1..]);
    }
  }

  lemma {:induction false} LowerStripRight(s: string)
    ensures StripRight(IsSpace, Lower(s)) == Lower(StripRight(IsSpace, s))
  {
    if s != [] && IsSpace(s[|s| - 1]) {
      assert Lower(s)[..|s| - 1] == Lower(s[..|s| - 1]);
      LowerStripRight(s[..|s| - 1]);
    }
  }

  /** Trimming and case folding commute. */
  lemma {:induction false} LowerTrim(s: string)
    ensures Trim(Lower(s)) == Lower(Trim(s))
  {
    LowerStripLeft(s);
    LowerStripRight(StripLeft(IsSpace, s));
  }

  lemma {:induction false} BlankIsAllSpace(s: string)
    ensures Blank(s) <==> forall i :: 0 <= i < |s| ==> IsSpace(s[i])
  {
    var lo, hi := StripFacts(IsSpace, s);
    if lo < hi {
      assert s[lo..hi][0] == s[lo];
    }
  }

  // ----- splitting and joining

  lemma {:induction false} SplitConcat(a: string, b: string, sep: char)
    ensures Split(a + [sep] + b, sep) == Split(a, sep) + Split(b, sep)
  {
    if a == [] {
      assert a + [sep] + b == [sep] + b;
    } else {
      assert (a + [sep] + b)[1..] == a[1..] + [sep] + b;
      SplitConcat(a[1..], b, sep);
    }
  }

  lemma {:induction false} SplitPlain(s: string, sep: char)
    requires sep !in s
    ensures Split(s, sep) == [s]
  {
    if s != [] {
      SplitPlain(s[1..], sep);
      assert [s[0]] + s[1..] == s;
    }
  }

  lemma {:induction false} SplitPieces(s: string, sep: char)
    ensures forall part <- Split(s, sep) :: sep !in part
  {
    if s != [] {
      SplitPieces(s[1..], sep);
    }
  }

  /** Splitting undoes joining when no part holds the separator. */
  lemma {:induction false} SplitJoin(parts: seq<string>, sep: char)
    requires parts != [] && forall part <- parts :: sep !in part
    ensures Split(Join(parts, sep), sep) == parts
  {
    if |parts| == 1 {
      SplitPlain(parts[0], sep);
    } else {
      SplitConcat(parts[0], Join(parts[1..], sep), sep);
      SplitPlain(parts[0], sep);
      SplitJoin(parts[1..], sep);
      assert parts == [parts[0]] + parts[1..];
    }
  }

  /** A separator that is in neither first part cuts two equal texts at the same place. */
  lemma {:induction false} CutAt(a: string, b: string, c: string, d: string, sep: char)
    requires sep !in a && sep !in c && a + [sep] + b == c + [sep] + d
    ensures a == c && b == d
  {
    SplitConcat(a, b, sep);
    SplitConcat(c, d, sep);
    SplitPlain(a, sep);
    SplitPlain(c, sep);
    assert ([a] + Split(b, sep))[0] == a && ([c] + Split(d, sep))[0] == c;
    assert (a + [sep] + b)[|a| + 1..] == b && (c + [sep] + d)[|c| + 1..] == d;
  }

  /** `strings.ReplaceAll(s, " ", "-")`. */
  function SpacesToDashes(s: string): (r: string)
    ensures |r| == |s|
  {
    seq(|s|, i requires 0 <= i < |s| => if s[i] == ' ' then '-' else s[i])
  }

  lemma {:induction false} DashesConcat(a: string, b: string)
    ensures SpacesToDashes(a + b) == SpacesToDashes(a) + SpacesToDashes(b)
  {
  }

  lemma {:induction false} DashesKeepFree(s: string, c: char)
    requires c !in s && c != '-'
    ensures c !in SpacesToDashes(s)
  {
    forall i | 0 <= i < |s| ensures SpacesToDashes(s)[i] != c {
      assert s[i] in s;
    }
  }

  /** Texts whose parts are joined by colons and then dashed, cut at the first colon. */
  lemma {:induction false} DashedCut(a: string, b: string, c: string, d: string)
    requires ':' !in a && ':' !in c
    ensures SpacesToDashes(a + ":" + b) == SpacesToDashes(c + ":" + d)
       <==> SpacesToDashes(a) == SpacesToDashes(c) && SpacesToDashes(b) == SpacesToDashes(d)
  {
    DashesConcat(a + ":", b);
    DashesConcat(a, ":");
    DashesConcat(c + ":", d);
    DashesConcat(c, ":");
    assert SpacesToDashes(":") == ":";
    DashesKeepFree(a, ':');
    DashesKeepFree(c, ':');
    if SpacesToDashes(a + ":" + b) == SpacesToDashes(c + ":" + d) {
      CutAt(SpacesToDashes(a), SpacesToDashes(b), SpacesToDashes(c), SpacesToDashes(d), ':');
    }
  }

  // ----- fields

  lemma {:induction false} FieldsAreWords(s: string)
    ensures forall f <- Fields(s) :: IsWord(f)
    decreases |s|
  {
    if s != [] {
      if IsSpace(s[0]) {
        FieldsAreWords(s[1..]);
      } else {
        var n := WordLength(s);
        FieldsAreWords(s[n..]);
        assert IsWord(s[..n]);
      }
    }
  }

  lemma {:induction false} WordLengthOf(w: string, rest: string)
    requires (forall c <- w :: !IsSpace(c)) && (rest == "" || IsSpace(rest[0]))
    ensures WordLength(w + rest) == |w|
  {
    if w == [] {
      assert w + rest == rest;
    } else {
      assert w[0] in w && (w + rest)[1..] == w[1..] + rest;
      WordLengthOf(w[1..], rest);
    }
  }

  /** Fields of a text that starts with a word and a space. */
  lemma {:induction false} FieldsWord(w: string, rest: string)
    requires IsWord(w) && (rest == "" || IsSpace(rest[0]))
    ensures Fields(w + rest) == [w] + Fields(rest)
  {
    WordLengthOf(w, rest);
    assert (w + rest)[0] == w[0] && w[0] in w;
    assert (w + rest)[..|w|] == w && (w + rest)[|w|..] == rest;
  }

  lemma {:induction false} FieldsSpace(rest: string)
    ensures Fields(" " + rest) == Fields(rest)
  {
    assert (" " + rest)[1..] == rest;
  }

  lemma {:induction false} NoComment(line: string)
    requires '#' !in line
    ensures StripComment(line) == line
  {
    if line != [] {
      assert line[0] in line && forall c <- line[1..] :: c in line;
      NoComment(line[1..]);
    }
  }

  // ----- ordering

  lemma {:induction false} LessTotal(a: string, b: string)
    ensures Less(a, b) || a == b || Less(b, a)
  {
    if a != [] && b != [] && a[0] == b[0] {
      LessTotal(a[1..], b[1..]);
      assert a == [a[0]] + a[1..] && b == [b[0]] + b[1..];
    }
  }

  lemma {:induction false} LessTransitive(a: string, b: string, c: string)
    requires Less(a, b) && Less(b, c)
    ensures Less(a, c)
  {
    if a != [] && a[0] == b[0] == c[0] {
      LessTransitive(a[1..], b[1..], c[1..]);
    }
  }

  lemma {:induction false} LessAsymmetric(a: string, b: string)
    requires Less(a, b)
    ensures !Less(b, a)
  {
    if a != [] && a[0] == b[0] {
      LessAsymmetric(a[1..], b[1..]);
    }
  }

  lemma {:induction false} NotLessSelf(a: string)
    ensures !Less(a, a)
  {
    if Less(a, a) {
      LessAsymmetric(a, a);
    }
  }

  lemma {:induction false} NotLessTransitive(x: string, y: string, z: string)
    ensures !Less(y, x) && !Less(z, y) ==> !Less(z, x)
  {
    LessTotal(x, y);
    LessTotal(y, z);
    if Less(x, y) && Less(y, z) {
      LessTransitive(x, y, z);
      LessAsymmetric(x, z);
    } else if x == y {
    } else if y == z && Less(x, z) {
      LessAsymmetric(x, z);
    }
  }

  predicate NotAfterText(a: string, b: string) {
    !Less(b, a)
  }

  // ----- lines of words

  /** A word that starts no comment. */
  predicate Plain(w: string) {
    IsWord(w) && '#' !in w
  }

  /** The two last words of a line. */
  function Tail(number: string, kind: string): string {
    " " + (number + (" " + (kind + "")))
  }

  lemma {:induction false} TailFields(number: string, kind: string)
    requires IsWord(number) && IsWord(kind)
    ensures Fields(Tail(number, kind)) == [number, kind]
  {
    FieldsSpace(number + (" " + (kind + "")));
    FieldsWord(number, " " + (kind + ""));
    FieldsSpace(kind + "");
    FieldsWord(kind, "");
  }

  lemma {:induction false} FourFields(a: string, b: string, c: string, d: string)
    requires IsWord(a) && IsWord(b) && IsWord(c) && IsWord(d)
    ensures Fields(a + (" " + (b + Tail(c, d)))) == [a, b, c, d]
  {
    FieldsWord(a, " " + (b + Tail(c, d)));
    FieldsSpace(b + Tail(c, d));
    FieldsWord(b, Tail(c, d));
    TailFields(c, d);
  }
}
