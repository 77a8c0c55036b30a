/** When the merge laws apply to what was parsed: option texts lose one trailing comma in the parser and
    one in every merge, so an option that ends in three commas is the one that stays unstable. */
module ParsedOptions {
  import opened Text
  import opened Sequences
  import opened Wrappers
  import opened Dictionary
  import opened KeyedMerge
  import opened CatalogMerge
  import opened CatalogMergeLaws
  import I = IncludeExpansion

  // ----- one option

  predicate EndsInThreeCommas(s: string) {
    |s| >= 3 && s[|s| - 3] == ',' && s[|s| - 2] == ',' && s[|s| - 1] == ','
  }

  /** What the parser stores of an option is stable under merging. */
  predicate StoredStable(option: string) {
    Stable(NormalizeOption(option))
  }

  lemma {:induction false} TrimCommaOfWord(w: string)
    requires forall c <- w :: !IsSpace(c)
    ensures NormalizeOption(w) == TrimComma(w) && forall c <- TrimComma(w) :: !IsSpace(c)
  {
    var t := TrimComma(w);
    forall c | c in t ensures !IsSpace(c) {
      assert c in w;
    }
    assert t != [] ==> t[0] in t && t[|t| - 1] in t;
    StripFixed(IsSpace, t);
  }

  /** The stored form of a word is stable exactly when the word does not end in three commas. */
  lemma {:induction false} WordStoredStable(w: string)
    requires forall c <- w :: !IsSpace(c)
    ensures StoredStable(w) <==> !EndsInThreeCommas(w)
  {
    var n := TrimComma(w);
    var m := TrimComma(n);
    TrimCommaOfWord(w);
    TrimCommaOfWord(n);
    TrimCommaOfWord(m);
    assert StoredStable(w) <==> TrimComma(m) == m;
    if |m| < |n| < |w| {
      assert n == w[..|w| - 1] && m == w[..|w| - 2];
    }
  }

  lemma {:induction false} StoredTwice(option: string)
    requires StoredStable(option)
    ensures StoredStable(NormalizeOption(option))
  {
  }

  ghost predicate AllStored(options: seq<string>) {
    forall i :: 0 <= i < |options| ==> StoredStable(options[i])
  }

  lemma {:induction false} StoredOptions(options: seq<string>)
    requires AllStored(options)
    ensures StableOptions(NormalizeOptions(options))
  {
    if options != [] {
      StoredOptions(options[1..]);
    }
  }

  lemma {:induction false} MergedStored(x: seq<string>, options: seq<string>)
    requires StableOptions(x) && AllStored(options)
    ensures StableOptions(MergeOptions(x, options))
  {
    var stored := NormalizeOptions(options);
    StoredOptions(options);
    var added := Distinct(Lower, Keys(Lower, x), stored);
    DistinctKeys(Lower, Keys(Lower, x), stored);
    forall i | 0 <= i < |added| ensures Stable(added[i]) {
      assert added[i] in added && added[i] in stored;
    }
  }

  // ----- one line

  lemma {:induction false} UpsertClean(vendors: seq<Vendor>, name: string, id: int, options: seq<string>)
    requires Each(CleanVendor, vendors) && AllStored(options)
    ensures Each(CleanVendor, Upsert(vendors, name, id, options))
  {
    StoredOptions(options);
    if !Blank(name) {
      var i := VendorIndex(vendors, Lower(Trim(name)));
      if i < |vendors| {
        MergedStored(vendors[i].options, options);
      }
    }
  }

  lemma {:induction false} FieldsAfterStored(fields: seq<string>, needle: string)
    requires AllStored(fields)
    ensures AllStored(FieldsAfter(fields, needle))
  {
    if fields != [] && !(fields[0] == needle && |fields| > 1) {
      FieldsAfterStored(fields[1..], needle);
    }
  }

  lemma {:induction false} ScanFieldsStored(all: seq<string>, fields: seq<string>, options: seq<string>,
                                            vendors: seq<Vendor>)
    requires AllStored(all) && AllStored(fields) && AllStored(options)
    ensures AllStored(ScanFields(all, fields, options, vendors).1)
    decreases |fields|
  {
    if fields != [] {
      var trimmed := NormalizeOption(fields[0]);
      StoredTwice(fields[0]);
      FieldsAfterStored(all, fields[0]);
      if trimmed == "" {
        ScanFieldsStored(all, fields[1..], options, vendors);
      } else if !("vendor=" <= Lower(trimmed)) && VendorIndex(vendors, Lower(trimmed)) == |vendors| {
        ScanFieldsStored(all, fields[1..], options + [trimmed], vendors);
      }
    }
  }

  lemma {:induction false} ResolvedStored(attribute: string, active: string, fields: seq<string>, vendors: seq<Vendor>)
    requires AllStored(fields)
    ensures AllStored(ResolveVendor(attribute, active, fields, vendors).1)
  {
    ScanFieldsStored(fields, fields, [], vendors);
  }

  lemma {:induction false} AddAttributeClean(vendors: seq<Vendor>, i: nat, attribute: Attribute)
    requires Each(CleanVendor, vendors) && i < |vendors| && StableAttribute(attribute)
    ensures Each(CleanVendor, AddAttribute(vendors, i, attribute))
  {
  }

  lemma {:induction false} AttributeLineClean(read: NumberReader, st: Parse, n: nat, fields: seq<string>)
    requires Each(CleanVendor, st.vendors) && AllStored(fields)
    ensures Each(CleanVendor, ParseAttributeLine(read, st, n, fields).vendors)
  {
    if |fields| >= 4 && ParseAttributeNumber(read, fields[2]).Some? {
      var number := ParseAttributeNumber(read, fields[2]).value;
      ResolvedStored(fields[1], st.active, fields[4..], st.vendors);
      var (vendor, options) := ResolveVendor(fields[1], st.active, fields[4..], st.vendors);
      StoredOptions(options);
      UpsertClean(st.vendors, vendor, 0, []);
      var vendors := Upsert(st.vendors, vendor, 0, []);
      var i := VendorIndex(vendors, Lower(Trim(vendor)));
      if i < |vendors| {
        AddAttributeClean(vendors, i, Attribute(fields[1], number.0, number.1, Lower(fields[3]),
                                                NormalizeOptions(options), []));
      }
    }
  }

  lemma {:induction false} VendorLineClean(read: NumberReader, st: Parse, n: nat, fields: seq<string>)
    requires Each(CleanVendor, st.vendors) && AllStored(fields)
    ensures Each(CleanVendor, ParseVendorLine(read, st, n, fields).vendors)
  {
    if |fields| >= 3 && read(Trim(fields[2])).Some? {
      UpsertClean(st.vendors, fields[1], read(Trim(fields[2])).value, fields[3..]);
    }
  }

  lemma {:induction false} BeginLineClean(st: Parse, n: nat, fields: seq<string>)
    requires Each(CleanVendor, st.vendors) && AllStored(fields)
    ensures Each(CleanVendor, ParseBeginLine(st, n, fields).vendors)
  {
    if |fields| >= 2 {
      UpsertClean(st.vendors, fields[1], 0, fields[2..]);
    }
  }

  lemma {:induction false} ValueLineClean(st: Parse, n: nat, fields: seq<string>)
    requires Each(CleanVendor, st.vendors)
    ensures Each(CleanVendor, ParseValueLine(st, n, fields).vendors)
  {
    if |fields| >= 4 {
      AddValueClean(st.vendors, Value(fields[1], fields[2], fields[3]));
    }
  }

  lemma {:induction false} AddValueClean(vendors: seq<Vendor>, value: Value)
    requires Each(CleanVendor, vendors)
    ensures Each(CleanVendor, AddValue(vendors, value))
  {
    var after := AddValue(vendors, value);
    forall v | 0 <= v < |after| ensures CleanVendor(after[v]) {
      forall a | 0 <= a < |after[v].attributes| ensures StableAttribute(after[v].attributes[a]) {
        assert StableAttribute(vendors[v].attributes[a]);
      }
    }
  }

  lemma {:induction false} LineClean(read: NumberReader, st: Parse, n: nat, line: string)
    requires Each(CleanVendor, st.vendors) && AllStored(Fields(StripComment(line)))
    ensures Each(CleanVendor, ParseLine(read, st, n, line).vendors)
  {
    var fields := Fields(StripComment(line));
    if fields == [] {
    } else if EqualFold(fields[0], "VENDOR") {
      VendorLineClean(read, st, n, fields);
    } else if EqualFold(fields[0], "BEGIN-VENDOR") {
      BeginLineClean(st, n, fields);
    } else if EqualFold(fields[0], "END-VENDOR") {
    } else if EqualFold(fields[0], "ATTRIBUTE") {
      AttributeLineClean(read, st, n, fields);
    } else {
      ValueLineClean(st, n, fields);
    }
  }

  // ----- whole texts

  /** Three commas in a row. */
  predicate Tripled(s: string) {
    exists i :: 0 <= i < |s| - 2 && TripleAt(s, i)
  }

  predicate TripleAt(s: string, i: nat)
    requires i < |s| - 2
  {
    s[i] == ',' && s[i + 1] == ',' && s[i + 2] == ','
  }

  lemma {:induction false} TripledSlice(s: string, lo: nat, hi: nat)
    requires lo <= hi <= |s| && Tripled(s[lo..hi])
    ensures Tripled(s)
  {
    var i: nat :| i < |s[lo..hi]| - 2 && TripleAt(s[lo..hi], i);
    assert TripleAt(s, lo + i);
  }

  lemma {:induction false} EndingIsTripled(s: string)
    requires EndsInThreeCommas(s)
    ensures Tripled(s)
  {
    assert TripleAt(s, |s| - 3);
  }

  lemma {:induction false} FieldTripled(s: string, f: string)
    requires f in Fields(s) && Tripled(f)
    ensures Tripled(s)
    decreases |s|
  {
    if IsSpace(s[0]) {
      FieldTripled(s[1..], f);
      assert s[1..] == s[1..|s|];
      TripledSlice(s, 1, |s|);
    } else {
      var n := WordLength(s);
      assert s[..n] == s[0..n] && s[n..] == s[n..|s|];
      if f in Fields(s[n..]) {
        FieldTripled(s[n..], f);
        TripledSlice(s, n, |s|);
      } else {
        TripledSlice(s, 0, n);
      }
    }
  }

  lemma {:induction false} CommentCut(line: string)
    ensures StripComment(line) <= line
  {
    if line != [] && line[0] != '#' {
      CommentCut(line[1..]);
    }
  }

  lemma {:induction false} FirstPart(s: string, sep: char)
    ensures Split(s, sep)[0] <= s
  {
    if s != [] {
      FirstPart(s[1..], sep);
    }
  }

  lemma {:induction false} PartTripled(s: string, sep: char, part: string)
    requires part in Split(s, sep) && Tripled(part)
    ensures Tripled(s)
    decreases |s|
  {
    FirstPart(s, sep);
    if part == Split(s, sep)[0] {
      assert s[0..|part|] == part;
      TripledSlice(s, 0, |part|);
    } else {
      assert part in Split(s[1..], sep);
      PartTripled(s[1..], sep, part);
      assert s[1..] == s[1..|s|];
      TripledSlice(s, 1, |s|);
    }
  }

  lemma {:induction false} LineStored(text: string, line: string)
    requires line in Split(text, '\n') && !Tripled(text)
    ensures AllStored(Fields(StripComment(line)))
  {
    var cut := StripComment(line);
    var fields := Fields(cut);
    FieldsAreWords(cut);
    CommentCut(line);
    forall i | 0 <= i < |fields| ensures StoredStable(fields[i]) {
      assert fields[i] in fields && IsWord(fields[i]);
      WordStoredStable(fields[i]);
      if EndsInThreeCommas(fields[i]) {
        EndingIsTripled(fields[i]);
        FieldTripled(cut, fields[i]);
        assert cut == line[0..|cut|];
        TripledSlice(line, 0, |cut|);
        PartTripled(text, '\n', line);
      }
    }
  }

  lemma {:induction false} LinesClean(read: NumberReader, text: string, st: Parse, n: nat, lines: seq<string>)
    requires Each(CleanVendor, st.vendors) && !Tripled(text) && forall line <- lines :: line in Split(text, '\n')
    ensures Each(CleanVendor, ParseLines(read, st, n, lines).vendors)
    decreases |lines|
  {
    if lines != [] {
      LineStored(text, lines[0]);
      LineClean(read, st, n + 1, lines[0]);
      LinesClean(read, text, ParseLine(read, st, n + 1, lines[0]), n + 1, lines[1..]);
    }
  }

  /** A text without three commas in a row parses to a catalog for which all merge laws hold. */
  lemma {:induction false} ParsedIsClean(read: NumberReader, source: string, text: string)
    requires !Tripled(text)
    ensures CleanCatalog(ParseCatalog(read, source, text))
  {
    LinesClean(read, text, EMPTY_PARSE, 0, Split(text, '\n'));
  }

  /** A dictionary text of one line, with one vendor and one option. */
  function OneOption(option: string): string {
    "VENDOR" + (" " + ("a" + Tail("1", option)))
  }

  lemma {:induction false} ParseOneOption(read: NumberReader, source: string, option: string)
    requires read("1") == Some(1) && Plain(option)
    ensures ParseCatalog(read, source, OneOption(option)).vendors == [Vendor("a", 1, NormalizeOptions([option]), [])]
  {
    var line := OneOption(option);
    assert '\n' !in option by {
      assert IsSpace('\n');
    }
    SplitPlain(line, '\n');
    NoComment(line);
    FourFields("VENDOR", "a", "1", option);
    StripFixed(IsSpace, "1");
    StripFixed(IsSpace, "a");
    var fields := ["VENDOR", "a", "1", option];
    assert fields[3..] == [option];
    var st := ParseLine(read, EMPTY_PARSE, 1, line);
    assert st.vendors == Upsert([], "a", 1, [option]) == [Vendor("a", 1, NormalizeOptions([option]), [])];
    assert ParseLines(read, EMPTY_PARSE, 0, [line]) == ParseLines(read, st, 1, []) by {
      assert [line][1..] == [];
    }
  }

  /** Parsed catalogs are not all clean: the text `VENDOR a 1 w` gives a clean one exactly when its option
      does not end in three commas. */
  lemma {:induction false} OneOptionClean(read: NumberReader, source: string, option: string)
    requires read("1") == Some(1) && Plain(option)
    ensures CleanCatalog(ParseCatalog(read, source, OneOption(option))) <==> !EndsInThreeCommas(option)
  {
    ParseOneOption(read, source, option);
    WordStoredStable(option);
    var n, stored := NormalizeOption(option), NormalizeOptions([option]);
    assert [option][1..] == [] && stored == if n == "" then [] else [n];
    var vendor := Vendor("a", 1, stored, []);
    if n != "" {
      assert stored[0] == n;
      assert CleanVendor(vendor) <==> Stable(n);
    }
    assert [vendor][0] == vendor;
  }

  // ----- loaded texts

  lemma {:induction false} TripledAcrossLine(a: string, b: string)
    requires Tripled(a + "\n" + b)
    ensures Tripled(a) || Tripled(b)
  {
    var s := a + "\n" + b;
    var i: nat :| i < |s| - 2 && TripleAt(s, i);
    assert s[|a|] == '\n';
    if i + 2 < |a| {
      assert TripleAt(a, i);
    } else {
      assert |a| < i;
      assert TripleAt(b, i - |a| - 1);
    }
  }

  lemma {:induction false} RenderedPlain(fs: I.FileSystem, pieces: seq<I.Piece>)
    requires PlainFiles(fs)
    ensures !Tripled(I.Render(fs, pieces))
  {
    if pieces != [] {
      var line, rest := I.LineText(fs, pieces[0]), I.Render(fs, pieces[1..]);
      RenderedPlain(fs, pieces[1..]);
      assert !Tripled(line) by {
        if line != "" {
          var text := fs.files[pieces[0].path];
          assert line in I.Lines(fs, pieces[0].path);
          if Tripled(line) {
            PartTripled(text, '\n', line);
          }
        }
      }
      if Tripled(line + "\n" + rest) {
        TripledAcrossLine(line, rest);
      }
    }
  }

  /** No file has three commas in a row: a check on the files themselves. */
  predicate PlainFiles(fs: I.FileSystem) {
    forall p <- fs.files :: !Tripled(fs.files[p])
  }

  lemma {:induction false} TextsPlain(fs: I.FileSystem, sources: seq<I.Source>)
    requires PlainFiles(fs)
    ensures forall i :: 0 <= i < |I.Texts(fs, sources)| ==> !Tripled(I.Texts(fs, sources)[i].text)
  {
    if sources != [] {
      RenderedPlain(fs, sources[0].pieces);
      TextsPlain(fs, sources[1..]);
    }
  }
}
