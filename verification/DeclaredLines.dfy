/** What a dictionary text declares, read off its lines: which block a line stands in, which vendor an
    ATTRIBUTE line is filed under, which line gives a vendor its number. The parsed catalog holds exactly
    that, for every text (configs/vendor_dictionary.go). */
module DeclaredLines {
  import opened Text
  import opened Sequences
  import opened Wrappers
  import opened Dictionary
  import opened DictionaryParser
  import opened ParserLaws

  // ----- lines

  function Words(line: string): seq<string> {
    Fields(StripComment(line))
  }

  predicate Directs(line: string, directive: string) {
    Words(line) != [] && EqualFold(Words(line)[0], directive)
  }

  predicate Begins(line: string) {
    Directs(line, "BEGIN-VENDOR") && |Words(line)| >= 2
  }

  predicate Ends(line: string) {
    Directs(line, "END-VENDOR")
  }

  predicate IsNumeral(read: NumberReader, word: string) {
    read(word).Some? && read(word).value > 0
  }

  predicate Numbers(read: NumberReader, line: string) {
    Directs(line, "VENDOR") && |Words(line)| >= 3 && IsNumeral(read, Words(line)[2])
  }

  predicate Declares(read: NumberReader, line: string) {
    Directs(line, "ATTRIBUTE") && |Words(line)| >= 4 && (IsNumeral(read, Words(line)[2]) || ValidOID(Words(line)[2]))
  }

  /** The attribute a line declares, when it is filed with the given options. */
  function AttributeOf(read: NumberReader, line: string, options: seq<string>): Attribute
    requires Declares(read, line)
  {
    var words := Words(line);
    Attribute(words[1],
              if IsNumeral(read, words[2]) then read(words[2]).value else 0,
              if IsNumeral(read, words[2]) then "" else words[2],
              Lower(words[3]), options, [])
  }

  // ----- which vendor an attribute is filed under

  /** The name in the last BEGIN-VENDOR line before line `c`, when no END-VENDOR line follows it. */
  function BlockVendor(lines: seq<string>, c: nat): string
    requires c <= |lines|
  {
    if c == 0 then ""
    else if Begins(lines[c - 1]) then Words(lines[c - 1])[1]
    else if Ends(lines[c - 1]) then ""
    else BlockVendor(lines, c - 1)
  }

  lemma {:induction false} InBlock(lines: seq<string>, b: nat, c: nat)
    requires b < c <= |lines| && Begins(lines[b]) && Unbroken(lines, b, c)
    ensures BlockVendor(lines, c) == Words(lines[b])[1]
  {
    if b < c - 1 {
      assert !Begins(lines[c - 1]) && !Ends(lines[c - 1]);
      InBlock(lines, b, c - 1);
    }
  }

  lemma {:induction false} BlockBegan(lines: seq<string>, c: nat) returns (b: nat)
    requires c <= |lines| && BlockVendor(lines, c) != ""
    ensures b < c && Begins(lines[b]) && Unbroken(lines, b, c) && Words(lines[b])[1] == BlockVendor(lines, c)
  {
    if Begins(lines[c - 1]) {
      b := c - 1;
    } else {
      b := BlockBegan(lines, c - 1);
    }
  }

  /** A line stands in the block of a vendor exactly when some BEGIN-VENDOR line before it names the vendor
      and no block begins or ends between the two. */
  lemma {:induction false} BlockVendorExactly(lines: seq<string>, c: nat, name: string)
    requires c <= |lines| && name != ""
    ensures BlockVendor(lines, c) == name <==>
              exists b: nat :: b < c && Begins(lines[b]) && Words(lines[b])[1] == name && Unbroken(lines, b, c)
  {
    if BlockVendor(lines, c) == name {
      var b := BlockBegan(lines, c);
    }
    if b: nat :| b < c && Begins(lines[b]) && Words(lines[b])[1] == name && Unbroken(lines, b, c) {
      InBlock(lines, b, c);
    }
  }

  /** No block begins or ends between two lines. */
  ghost predicate Unbroken(lines: seq<string>, b: nat, c: nat)
    requires c <= |lines|
  {
    forall j :: b < j < c ==> !Begins(lines[j]) && !Ends(lines[j])
  }

  /** The vendor a trailing field names: after `vendor=`, or by being a known name itself. */
  function Named(known: set<string>, field: string): Option<string> {
    var word := NormalizeOption(field);
    if "vendor=" <= Lower(word) then Some(Trim(word[7..]))
    else if Lower(word) in known then Some(word)
    else None
  }

  predicate IsNamed(known: set<string>, field: string) {
    Named(known, field).Some?
  }

  function Naming(known: set<string>): string -> bool {
    (field: string) => IsNamed(known, field)
  }

  datatype Filing = Filing(vendor: string, options: seq<string>)

  /** Where an ATTRIBUTE line is filed: under the vendor of its block; else under the known vendor before
      the first dot of its name; else under the vendor that the first naming field names, and all other
      fields are options. */
  function FilingOf(known: set<string>, block: string, name: string, trailing: seq<string>): Option<Filing> {
    var parts := Split(name, '.');
    if block != "" then Some(Filing(block, NormalizeOptions(trailing)))
    else if |parts| > 1 && Lower(parts[0]) in known then Some(Filing(parts[0], NormalizeOptions(trailing)))
    else
      var t := FirstSuch(Naming(known), trailing);
      if t == |trailing| || Named(known, trailing[t]).value == "" then None
      else Some(Filing(Named(known, trailing[t]).value,
                       NormalizeOptions(NormalizeOptions(trailing[..t]) + trailing[t + 1..])))
  }

  function FiledAt(read: NumberReader, lines: seq<string>, c: nat): Option<Filing>
    requires c < |lines|
    decreases c, 2
  {
    if Declares(read, lines[c])
    then FilingOf(Known(read, lines, c), BlockVendor(lines, c), Words(lines[c])[1], Words(lines[c])[4..])
    else None
  }

  /** The vendor name a line uses, when it files as given. */
  function UsedBy(read: NumberReader, line: string, filing: Option<Filing>): seq<string> {
    if filing.Some? then [filing.value.vendor]
    else if Numbers(read, line) || Begins(line) then [Words(line)[1]]
    else []
  }

  /** The vendor names used by the first lines, in order. */
  function NamesUsed(read: NumberReader, lines: seq<string>, count: nat): seq<string>
    requires count <= |lines|
    decreases count, 0
  {
    if count == 0 then []
    else NamesUsed(read, lines, count - 1) + UsedBy(read, lines[count - 1], FiledAt(read, lines, count - 1))
  }

  function Known(read: NumberReader, lines: seq<string>, count: nat): set<string>
    requires count <= |lines|
    decreases count, 1
  {
    Keys(Lower, NamesUsed(read, lines, count))
  }

  // ----- the parser files as the line says

  lemma {:induction false} DotPrefixIsPart(s: string)
    ensures var parts := Split(s, '.');
            DotPrefix(s) == if |parts| > 1 then Some(parts[0]) else None
  {
    if s != [] && s[0] != '.' {
      DotPrefixIsPart(s[1..]);
    }
  }

  /** The fields behind a field that occurs nowhere before. */
  lemma {:induction false} AfterFirst(fields: seq<string>, t: nat)
    requires t < |fields| && forall i :: 0 <= i < t ==> fields[i] != fields[t]
    ensures FieldsAfter(fields, fields[t]) == fields[t + 1..]
  {
    if t == 0 {
      if |fields| == 1 {
        assert FieldsAfter([], fields[0]) == [];
        assert fields[1..] == [];
      }
    } else {
      AfterFirst(fields[1..], t - 1);
      assert fields[1..][t..] == fields[t + 1..];
    }
  }

  /** The names of the vendors are the known ones. */
  ghost predicate KnowsVendors(known: set<string>, vendors: seq<Vendor>) {
    forall key :: key in known <==> VendorIndex(vendors, key) < |vendors|
  }

  /** The outcome of a scan whose first naming field is at `t`. */
  ghost predicate Scanned(known: set<string>, fields: seq<string>, t: nat, vendor: string, options: seq<string>)
    requires t <= |fields| && (t < |fields| ==> IsNamed(known, fields[t]))
  {
    if t == |fields| then vendor == ""
    else
      var name := Named(known, fields[t]).value;
      && (vendor == "" <==> name == "") && Lower(vendor) == Lower(name)
      && options == NormalizeOptions(fields[..t]) + fields[t + 1..]
      && (Lower(name) in known || vendor == name)
  }

  /** Field `t` is the first that names a vendor. */
  ghost predicate FirstNamed(known: set<string>, fields: seq<string>, t: nat) {
    && t <= |fields| && (t < |fields| ==> IsNamed(known, fields[t]))
    && forall j :: 0 <= j < t ==> !IsNamed(known, fields[j])
  }

  ghost predicate ScannedFrom(known: set<string>, vendors: seq<Vendor>, fields: seq<string>, t: nat, i: nat)
    requires FirstNamed(known, fields, t) && i <= t
  {
    var r := ScanFields(fields, fields[i..], NormalizeOptions(fields[..i]), vendors);
    Scanned(known, fields, t, r.0, r.1)
  }

  /** The scan from field `i` on. */
  lemma {:induction false} ScanIsFirstNamed(known: set<string>, vendors: seq<Vendor>, fields: seq<string>, t: nat,
                                            i: nat)
    requires KnowsVendors(known, vendors) && NamesTrimmed(vendors) && FirstNamed(known, fields, t) && i <= t
    ensures ScannedFrom(known, vendors, fields, t, i)
    decreases t - i
  {
    if i < t {
      ScanPasses(known, vendors, fields, i);
      ScanIsFirstNamed(known, vendors, fields, t, i + 1);
    } else if t < |fields| {
      ScanStops(known, vendors, fields, t);
    }
  }

  lemma {:induction false} ScanStops(known: set<string>, vendors: seq<Vendor>, fields: seq<string>, t: nat)
    requires KnowsVendors(known, vendors) && NamesTrimmed(vendors)
    requires t < |fields| && IsNamed(known, fields[t]) && forall j :: 0 <= j < t ==> !IsNamed(known, fields[j])
    ensures var r := ScanFields(fields, fields[t..], NormalizeOptions(fields[..t]), vendors);
            Scanned(known, fields, t, r.0, r.1)
  {
    var word := NormalizeOption(fields[t]);
    assert fields[t..][0] == fields[t];
    AfterFirst(fields, t);
    NamedIsText(known, vendors, word);
  }

  lemma {:induction false} ScanPasses(known: set<string>, vendors: seq<Vendor>, fields: seq<string>, i: nat)
    requires KnowsVendors(known, vendors) && i < |fields| && !IsNamed(known, fields[i])
    ensures ScanFields(fields, fields[i..], NormalizeOptions(fields[..i]), vendors)
         == ScanFields(fields, fields[i + 1..], NormalizeOptions(fields[..i + 1]), vendors)
  {
    assert fields[i..][0] == fields[i] && fields[i..][1..] == fields[i + 1..];
    assert fields[..i + 1] == fields[..i] + [fields[i]];
    NormalizeConcat(fields[..i], [fields[i]]);
    NormalizeOne(fields[i]);
    assert NormalizeOptions(fields[..i]) + [] == NormalizeOptions(fields[..i]);
  }

  lemma {:induction false} NormalizeOne(option: string)
    ensures NormalizeOptions([option]) == if NormalizeOption(option) == "" then [] else [NormalizeOption(option)]
  {
    assert [option][1..] == [];
  }

  lemma {:induction false} NamedIsText(known: set<string>, vendors: seq<Vendor>, word: string)
    requires KnowsVendors(known, vendors) && NamesTrimmed(vendors)
    ensures Lower(word) in known ==> word != ""
  {
    if Lower(word) in known {
      var i := VendorIndex(vendors, Lower(word));
      assert vendors[i].name != "";
    }
  }

  /** The vendor an ATTRIBUTE line resolves to is the one its words say, up to spelling. */
  lemma {:induction false} ResolvesAsFiled(known: set<string>, vendors: seq<Vendor>, block: string, name: string,
                                           trailing: seq<string>)
    requires KnowsVendors(known, vendors) && NamesTrimmed(vendors) && IsWord(name)
    requires block != "" ==> IsWord(block)
    ensures var (vendor, options) := ResolveVendor(name, block, trailing, vendors);
            match FilingOf(known, block, name, trailing)
            case None => vendor == ""
            case Some(filing) =>
              && vendor != "" && Lower(vendor) == Lower(filing.vendor) && filing.options == NormalizeOptions(options)
              && (Lower(filing.vendor) in known || vendor == filing.vendor)
  {
    WordTrimmed(name);
    if block != "" {
      WordTrimmed(block);
    } else {
      DotPrefixIsPart(name);
      var parts := Split(name, '.');
      if |parts| > 1 && Lower(parts[0]) in known {
        var i := VendorIndex(vendors, Lower(parts[0]));
        assert vendors[i].name != "";
      } else {
        FiledByScan(known, vendors, trailing);
      }
    }
  }

  lemma {:induction false} FiledByScan(known: set<string>, vendors: seq<Vendor>, trailing: seq<string>)
    requires KnowsVendors(known, vendors) && NamesTrimmed(vendors)
    ensures var t, r := FirstSuch(Naming(known), trailing), ScanFields(trailing, trailing, [], vendors);
            FirstNamed(known, trailing, t) && Scanned(known, trailing, t, r.0, r.1)
  {
    var t := FirstSuch(Naming(known), trailing);
    assert t < |trailing| ==> Naming(known)(trailing[t]);
    forall j | 0 <= j < t ensures !IsNamed(known, trailing[j]) {
      assert !Naming(known)(trailing[j]);
    }
    ScanIsFirstNamed(known, vendors, trailing, t, 0);
    assert trailing[0..] == trailing && trailing[..0] == [] && NormalizeOptions([]) == [];
  }

  lemma {:induction false} WordTrimmed(word: string)
    requires IsWord(word)
    ensures Trim(word) == word && !Blank(word)
  {
    assert word[0] in word && word[|word| - 1] in word;
    StripFixed(IsSpace, word);
  }

  // ----- one line

  lemma {:induction false} OneDirective(line: string, a: string, b: string)
    requires Directs(line, a) && |a| != |b|
    ensures !Directs(line, b)
  {
    assert |Lower(a)| == |a| && |Lower(b)| == |b|;
  }

  const DIRECTIVES := {"VENDOR", "BEGIN-VENDOR", "END-VENDOR", "ATTRIBUTE", "VALUE"}

  lemma {:induction false} OtherDirectives(line: string, directive: string)
    requires Directs(line, directive) && directive in DIRECTIVES
    ensures forall other | other in DIRECTIVES :: other != directive ==> !Directs(line, other)
  {
    forall other | other in DIRECTIVES && other != directive
      ensures !Directs(line, other)
    {
      OneDirective(line, directive, other);
    }
  }

  lemma {:induction false} WordsAreWords(line: string)
    ensures forall w <- Words(line) :: IsWord(w) && Trim(w) == w && !Blank(w)
  {
    FieldsAreWords(StripComment(line));
    forall w | w in Words(line) ensures Trim(w) == w && !Blank(w) {
      WordTrimmed(w);
    }
  }

  /** The same vendors and attributes, with possibly more values. */
  ghost predicate SameButValues(before: seq<Vendor>, after: seq<Vendor>) {
    && |before| == |after|
    && forall v :: 0 <= v < |before| ==>
         && after[v] == before[v].(attributes := after[v].attributes)
         && SameDeclared(before[v].attributes, after[v].attributes)
  }

  ghost predicate SameDeclared(before: seq<Attribute>, after: seq<Attribute>) {
    |before| == |after| && forall a :: 0 <= a < |before| ==> Bare(after[a]) == Bare(before[a])
  }

  /** An attribute as declared, before any VALUE line. */
  function Bare(a: Attribute): Attribute {
    a.(values := [])
  }

  lemma {:induction false} VendorLine(read: NumberReader, st: Parse, n: nat, line: string)
    requires Directs(line, "VENDOR")
    ensures var after, words := ParseLine(read, st, n, line), Words(line);
            && after.active == st.active
            && after.vendors == if !Numbers(read, line) then st.vendors
                                else Upsert(st.vendors, words[1], read(words[2]).value, words[3..])
  {
    WordsAreWords(line);
  }

  lemma {:induction false} BeginLine(read: NumberReader, st: Parse, n: nat, line: string)
    requires Directs(line, "BEGIN-VENDOR")
    ensures var after, words := ParseLine(read, st, n, line), Words(line);
            && after.active == (if Begins(line) then words[1] else st.active)
            && after.vendors == if Begins(line) then Upsert(st.vendors, words[1], 0, words[2..]) else st.vendors
  {
    OtherDirectives(line, "BEGIN-VENDOR");
  }

  lemma {:induction false} EndLine(read: NumberReader, st: Parse, n: nat, line: string)
    requires Ends(line)
    ensures var after := ParseLine(read, st, n, line); after.active == "" && after.vendors == st.vendors
  {
    OtherDirectives(line, "END-VENDOR");
  }

  lemma {:induction false} ValuesLine(read: NumberReader, st: Parse, n: nat, line: string)
    requires !Directs(line, "VENDOR") && !Directs(line, "BEGIN-VENDOR") && !Ends(line) && !Directs(line, "ATTRIBUTE")
    ensures var after := ParseLine(read, st, n, line);
            after.active == st.active && SameButValues(st.vendors, after.vendors)
  {
  }

  /** The attribute joins the vendor of that name, which is added if it is new. */
  ghost predicate FiledIn(before: seq<Vendor>, after: seq<Vendor>, name: string, attribute: Attribute) {
    var vendors := Upsert(before, name, 0, []);
    var i := VendorIndex(vendors, Lower(name));
    i < |vendors| && after == AddAttribute(vendors, i, attribute)
  }

  lemma {:induction false} UpsertHas(vendors: seq<Vendor>, name: string, id: int, options: seq<string>)
    requires !Blank(name) && Trim(name) == name
    ensures var after := Upsert(vendors, name, id, options); VendorIndex(after, Lower(name)) < |after|
  {
    var after := Upsert(vendors, name, id, options);
    var i := VendorIndex(vendors, Lower(name));
    assert Lower(after[i].name) == Lower(name);
  }

  /** Adding to a vendor that is there needs only its folded name. */
  lemma {:induction false} UpsertSpelling(vendors: seq<Vendor>, a: string, b: string)
    requires Lower(a) == Lower(b) && !Blank(a) && Trim(a) == a && Trim(b) == b
    requires a == b || VendorIndex(vendors, Lower(a)) < |vendors|
    ensures Upsert(vendors, a, 0, []) == Upsert(vendors, b, 0, [])
  {
    assert |Lower(a)| == |a| && |Lower(b)| == |b|;
  }

  lemma {:induction false} FilingTrimmed(known: set<string>, vendors: seq<Vendor>, block: string, name: string,
                                         trailing: seq<string>)
    requires KnowsVendors(known, vendors) && NamesTrimmed(vendors) && IsWord(name)
    requires block != "" ==> IsWord(block)
    requires FilingOf(known, block, name, trailing).Some?
    ensures var vendor := FilingOf(known, block, name, trailing).value.vendor; !Blank(vendor) && Trim(vendor) == vendor
  {
    var parts := Split(name, '.');
    if block != "" {
      WordTrimmed(block);
    } else if |parts| > 1 && Lower(parts[0]) in known {
      FirstPartIsWord(known, vendors, name);
    } else {
      var t := FirstSuch(Naming(known), trailing);
      assert Naming(known)(trailing[t]);
      var word := NormalizeOption(trailing[t]);
      TrimTrim(TrimComma(trailing[t]));
      NamedIsText(known, vendors, word);
      if "vendor=" <= Lower(word) {
        TrimTrim(word[7..]);
      }
    }
  }

  lemma {:induction false} FirstPartIsWord(known: set<string>, vendors: seq<Vendor>, name: string)
    requires KnowsVendors(known, vendors) && NamesTrimmed(vendors)
    requires IsWord(name) && Lower(Split(name, '.')[0]) in known
    ensures var part := Split(name, '.')[0]; !Blank(part) && Trim(part) == part
  {
    var part := Split(name, '.')[0];
    NamedIsText(known, vendors, part);
    SplitPrefix(name, '.');
    assert IsWord(part);
    WordTrimmed(part);
  }

  lemma {:induction false} SplitPrefix(s: string, sep: char)
    ensures Split(s, sep)[0] <= s
  {
    if s != [] && s[0] != sep {
      SplitPrefix(s[1..], sep);
    }
  }

  /** What a line files, if anything. */
  function FilingHere(read: NumberReader, known: set<string>, block: string, line: string): Option<Filing> {
    if Declares(read, line) then FilingOf(known, block, Words(line)[1], Words(line)[4..]) else None
  }

  lemma {:induction false} AttributeLine(read: NumberReader, st: Parse, n: nat, line: string, known: set<string>)
    requires Directs(line, "ATTRIBUTE") && KnowsVendors(known, st.vendors) && NamesTrimmed(st.vendors)
    requires st.active != "" ==> IsWord(st.active)
    ensures var after, filing := ParseLine(read, st, n, line), FilingHere(read, known, st.active, line);
            && after.active == st.active
            && match filing
               case None => after.vendors == st.vendors
               case Some(f) => FiledIn(st.vendors, after.vendors, f.vendor, AttributeOf(read, line, f.options))
  {
    var words := Words(line);
    OtherDirectives(line, "ATTRIBUTE");
    WordsAreWords(line);
    assert ParseLine(read, st, n, line) == ParseAttributeLine(read, st, n, words);
    if Declares(read, line) {
      ResolvesAsFiled(known, st.vendors, st.active, words[1], words[4..]);
      var filing := FilingOf(known, st.active, words[1], words[4..]);
      if filing.Some? {
        FilingTrimmed(known, st.vendors, st.active, words[1], words[4..]);
        FilesAttribute(read, st, n, line, known, filing.value);
      }
    } else if |words| >= 4 {
      assert ParseAttributeNumber(read, words[2]).None?;
    }
  }

  lemma {:induction false} FilesAttribute(read: NumberReader, st: Parse, n: nat, line: string, known: set<string>,
                                          filing: Filing)
    requires Declares(read, line) && KnowsVendors(known, st.vendors) && NamesTrimmed(st.vendors)
    requires !Blank(filing.vendor) && Trim(filing.vendor) == filing.vendor
    requires var words := Words(line);
             var (vendor, options) := ResolveVendor(words[1], st.active, words[4..], st.vendors);
             && vendor != "" && Lower(vendor) == Lower(filing.vendor) && filing.options == NormalizeOptions(options)
             && (Lower(filing.vendor) in known || vendor == filing.vendor)
    ensures FiledIn(st.vendors, ParseAttributeLine(read, st, n, Words(line)).vendors, filing.vendor,
                    AttributeOf(read, line, filing.options))
  {
    var words := Words(line);
    WordsAreWords(line);
    var (vendor, options) := ResolveVendor(words[1], st.active, words[4..], st.vendors);
    assert Trim(vendor) == vendor && !Blank(vendor) by {
      if Lower(filing.vendor) in known && vendor != filing.vendor {
        SpelledTrimmed(vendor, filing.vendor);
      }
    }
    UpsertSpelling(st.vendors, vendor, filing.vendor);
    UpsertHas(st.vendors, filing.vendor, 0, []);
    assert ParseAttributeNumber(read, words[2]).value
        == (if IsNumeral(read, words[2]) then (read(words[2]).value, "") else (0, words[2]));
  }

  /** Spelling in another case moves no spaces. */
  lemma {:induction false} SpelledTrimmed(a: string, b: string)
    requires Lower(a) == Lower(b) && !Blank(b) && Trim(b) == b
    ensures !Blank(a) && Trim(a) == a
  {
    assert |Lower(a)| == |a| && |Lower(b)| == |b|;
    TrimTrim(b);
    assert a != "";
    assert LowerChar(a[0]) == Lower(a)[0] == LowerChar(b[0]);
    assert LowerChar(a[|a| - 1]) == Lower(a)[|a| - 1] == LowerChar(b[|a| - 1]);
    StripFixed(IsSpace, a);
  }

  /** What a line does to the vendors. */
  ghost predicate Effect(read: NumberReader, before: seq<Vendor>, after: seq<Vendor>, line: string,
                         filing: Option<Filing>)
    requires filing.Some? ==> Declares(read, line)
  {
    var words := Words(line);
    if filing.Some? then FiledIn(before, after, filing.value.vendor, AttributeOf(read, line, filing.value.options))
    else if Numbers(read, line) then after == Upsert(before, words[1], read(words[2]).value, words[3..])
    else if Begins(line) then after == Upsert(before, words[1], 0, words[2..])
    else SameButValues(before, after)
  }

  lemma {:induction false} LineEffect(read: NumberReader, st: Parse, n: nat, line: string, known: set<string>)
    requires KnowsVendors(known, st.vendors) && NamesTrimmed(st.vendors) && (st.active != "" ==> IsWord(st.active))
    ensures var after := ParseLine(read, st, n, line);
            && Effect(read, st.vendors, after.vendors, line, FilingHere(read, known, st.active, line))
            && after.active == if Begins(line) then Words(line)[1] else if Ends(line) then "" else st.active
  {
    if Directs(line, "VENDOR") {
      OtherDirectives(line, "VENDOR");
      VendorLine(read, st, n, line);
    } else if Directs(line, "BEGIN-VENDOR") {
      OtherDirectives(line, "BEGIN-VENDOR");
      BeginLine(read, st, n, line);
    } else if Ends(line) {
      OtherDirectives(line, "END-VENDOR");
      EndLine(read, st, n, line);
    } else if Directs(line, "ATTRIBUTE") {
      OtherDirectives(line, "ATTRIBUTE");
      AttributeLine(read, st, n, line, known);
    } else {
      ValuesLine(read, st, n, line);
    }
  }

  // ----- vendors, after any number of lines

  function NameOf(v: Vendor): string {
    v.name
  }

  /** The vendors after some lines: one per name used, spelled as first used, in that order. */
  ghost predicate NamesAre(vendors: seq<Vendor>, used: seq<string>) {
    Mapped(NameOf, vendors) == Distinct(Lower, {}, used)
  }

  lemma {:induction false} NamesKnown(vendors: seq<Vendor>, used: seq<string>)
    requires NamesAre(vendors, used)
    ensures KnowsVendors(Keys(Lower, used), vendors)
  {
    var names := Mapped(NameOf, vendors);
    DistinctKeys(Lower, {}, used);
    forall key ensures key in Keys(Lower, used) <==> VendorIndex(vendors, key) < |vendors| {
      if key in Keys(Lower, names) {
        var i :| 0 <= i < |names| && Lower(names[i]) == key;
        assert Lower(vendors[i].name) == key;
      }
      var i := VendorIndex(vendors, key);
      if i < |vendors| {
        assert names[i] == vendors[i].name && names[i] in names;
      }
    }
  }

  lemma {:induction false} UpsertNames(vendors: seq<Vendor>, used: seq<string>, name: string, id: int,
                                       options: seq<string>)
    requires NamesAre(vendors, used) && !Blank(name) && Trim(name) == name
    ensures NamesAre(Upsert(vendors, name, id, options), used + [name])
  {
    var after := Upsert(vendors, name, id, options);
    var i := VendorIndex(vendors, Lower(name));
    NamesKnown(vendors, used);
    DistinctConcat(Lower, {}, used, [name]);
    assert {} + Keys(Lower, used) == Keys(Lower, used);
    assert Distinct(Lower, Keys(Lower, used), [name]) == if Lower(name) in Keys(Lower, used) then [] else [name] by {
      assert [name][1..] == [];
    }
    if i < |vendors| {
      SameNamesMapped(vendors, after);
    } else {
      MappedConcat(NameOf, vendors, [after[|vendors|]]);
      assert after == vendors + [after[|vendors|]];
      assert Mapped(NameOf, [after[|vendors|]]) == [name];
    }
  }

  lemma {:induction false} SameNamesMapped(a: seq<Vendor>, b: seq<Vendor>)
    requires |a| == |b| && forall v :: 0 <= v < |a| ==> a[v].name == b[v].name
    ensures Mapped(NameOf, a) == Mapped(NameOf, b)
  {
  }

  lemma {:induction false} FiledNames(vendors: seq<Vendor>, after: seq<Vendor>, used: seq<string>, name: string,
                                      attribute: Attribute)
    requires NamesAre(vendors, used) && !Blank(name) && Trim(name) == name && FiledIn(vendors, after, name, attribute)
    ensures NamesAre(after, used + [name])
  {
    UpsertNames(vendors, used, name, 0, []);
    SameNamesMapped(Upsert(vendors, name, 0, []), after);
  }

  /** What holds after the first `c` lines of any text. */
  ghost predicate Kept(read: NumberReader, lines: seq<string>, c: nat)
    requires c <= |lines|
  {
    var st := After(read, lines, c);
    && st.active == BlockVendor(lines, c)
    && NamesAre(st.vendors, NamesUsed(read, lines, c))
    && NamesTrimmed(st.vendors) && DistinctNames(st.vendors)
  }

  lemma {:induction false} BlockIsWord(lines: seq<string>, c: nat)
    requires c <= |lines|
    ensures BlockVendor(lines, c) != "" ==> IsWord(BlockVendor(lines, c))
  {
    if c > 0 {
      BlockIsWord(lines, c - 1);
      FieldsAreWords(StripComment(lines[c - 1]));
      assert Begins(lines[c - 1]) ==> Words(lines[c - 1])[1] in Words(lines[c - 1]);
    }
  }

  /** After any number of lines the parser is in the block the lines say, and has one vendor per name used,
      spelled as first used, in order of first use. */
  lemma {:induction false} VendorsExactly(read: NumberReader, lines: seq<string>, c: nat)
    requires c <= |lines|
    ensures Kept(read, lines, c)
  {
    KeptAtFirst(read, lines);
    for i := 0 to c
      invariant Kept(read, lines, i)
    {
      KeptNext(read, lines, i);
    }
  }

  lemma {:induction false} KeptAtFirst(read: NumberReader, lines: seq<string>)
    ensures Kept(read, lines, 0)
  {
    assert lines[..0] == [];
  }

  lemma {:induction false} KeptNext(read: NumberReader, lines: seq<string>, c: nat)
    requires c < |lines| && Kept(read, lines, c)
    ensures Kept(read, lines, c + 1)
  {
    LinesWellFormed(read, EMPTY_PARSE, 0, lines[..c + 1]);
    LineHappens(read, lines, c);
    NamesNext(read, lines, c);
  }

  /** Line `c` does to the vendors before it what its words say. */
  ghost predicate Happens(read: NumberReader, lines: seq<string>, c: nat)
    requires c < |lines|
  {
    Effect(read, After(read, lines, c).vendors, After(read, lines, c + 1).vendors, lines[c], FiledAt(read, lines, c))
  }

  lemma {:induction false} LineHappens(read: NumberReader, lines: seq<string>, c: nat)
    requires c < |lines| && Kept(read, lines, c)
    ensures Happens(read, lines, c) && After(read, lines, c + 1).active == BlockVendor(lines, c + 1)
  {
    var st, known := After(read, lines, c), Known(read, lines, c);
    NamesKnown(st.vendors, NamesUsed(read, lines, c));
    BlockIsWord(lines, c);
    LineEffect(read, st, c + 1, lines[c], known);
    AfterNext(read, lines, c);
    HereIsAt(read, lines, c);
  }

  lemma {:induction false} HereIsAt(read: NumberReader, lines: seq<string>, c: nat)
    requires c < |lines|
    ensures FilingHere(read, Known(read, lines, c), BlockVendor(lines, c), lines[c]) == FiledAt(read, lines, c)
  {
  }

  lemma {:induction false} NamesNext(read: NumberReader, lines: seq<string>, c: nat)
    requires c < |lines| && Kept(read, lines, c) && Happens(read, lines, c)
    ensures NamesAre(After(read, lines, c + 1).vendors, NamesUsed(read, lines, c + 1))
  {
    var before, filing := After(read, lines, c).vendors, FiledAt(read, lines, c);
    var words := Words(lines[c]);
    if filing.Some? {
      WordsAreWords(lines[c]);
      NamesKnown(before, NamesUsed(read, lines, c));
      BlockIsWord(lines, c);
      FilingTrimmed(Known(read, lines, c), before, BlockVendor(lines, c), words[1], words[4..]);
    }
    EffectNames(read, before, After(read, lines, c + 1).vendors, lines[c], filing, NamesUsed(read, lines, c));
  }

  lemma {:induction false} EffectNames(read: NumberReader, before: seq<Vendor>, after: seq<Vendor>, line: string,
                                       filing: Option<Filing>, used: seq<string>)
    requires filing.Some? ==>
             Declares(read, line) && !Blank(filing.value.vendor) && Trim(filing.value.vendor) == filing.value.vendor
    requires Effect(read, before, after, line, filing) && NamesAre(before, used)
    ensures NamesAre(after, used + UsedBy(read, line, filing))
  {
    var words := Words(line);
    WordsAreWords(line);
    if filing.Some? {
      FiledNames(before, after, used, filing.value.vendor, AttributeOf(read, line, filing.value.options));
    } else if Numbers(read, line) {
      UpsertNames(before, used, words[1], read(words[2]).value, words[3..]);
    } else if Begins(line) {
      UpsertNames(before, used, words[1], 0, words[2..]);
    } else {
      SameNamesMapped(before, after);
      assert used + [] == used;
    }
  }

  // ----- one vendor, after any number of lines

  predicate FiledUnder(read: NumberReader, lines: seq<string>, c: nat, key: string)
    requires c < |lines|
  {
    FiledAt(read, lines, c).Some? && Lower(FiledAt(read, lines, c).value.vendor) == key
  }

  function DeclaredAt(read: NumberReader, lines: seq<string>, c: nat): Attribute
    requires c < |lines| && FiledAt(read, lines, c).Some?
  {
    AttributeOf(read, lines[c], FiledAt(read, lines, c).value.options)
  }

  /** The lines that file an attribute under a vendor, in order. */
  function LinesUnder(read: NumberReader, lines: seq<string>, count: nat, key: string): seq<nat>
    requires count <= |lines|
  {
    if count == 0 then []
    else LinesUnder(read, lines, count - 1, key) + if FiledUnder(read, lines, count - 1, key) then [count - 1] else []
  }

  predicate NumbersVendor(read: NumberReader, line: string, key: string) {
    Numbers(read, line) && Lower(Words(line)[1]) == key
  }

  /** The number in the last VENDOR line of a vendor, 0 without one. */
  function VendorNumber(read: NumberReader, lines: seq<string>, count: nat, key: string): int
    requires count <= |lines|
  {
    if count == 0 then 0
    else if NumbersVendor(read, lines[count - 1], key) then read(Words(lines[count - 1])[2]).value
    else VendorNumber(read, lines, count - 1, key)
  }

  /** The option fields a line gives to a vendor: those of its VENDOR and BEGIN-VENDOR lines. */
  function OptionsAt(read: NumberReader, line: string, key: string): seq<string> {
    if NumbersVendor(read, line, key) then Words(line)[3..]
    else if Begins(line) && Lower(Words(line)[1]) == key then Words(line)[2..]
    else []
  }

  function OptionFields(read: NumberReader, lines: seq<string>, count: nat, key: string): seq<string>
    requires count <= |lines|
  {
    if count == 0 then []
    else OptionFields(read, lines, count - 1, key) + OptionsAt(read, lines[count - 1], key)
  }

  ghost predicate AttributesAre(read: NumberReader, lines: seq<string>, attributes: seq<Attribute>, from: seq<nat>) {
    && |attributes| == |from|
    && forall a :: 0 <= a < |from| ==>
         && from[a] < |lines| && FiledAt(read, lines, from[a]).Some?
         && Bare(attributes[a]) == DeclaredAt(read, lines, from[a])
  }

  /** A vendor is what the first lines say: its number, its attributes and its options. */
  ghost predicate Holds(read: NumberReader, lines: seq<string>, count: nat, v: Vendor)
    requires count <= |lines|
  {
    var key := Lower(v.name);
    && v.id == VendorNumber(read, lines, count, key)
    && AttributesAre(read, lines, v.attributes, LinesUnder(read, lines, count, key))
    && Keys(Lower, v.options) == Keys(Lower, NormalizeOptions(OptionFields(read, lines, count, key)))
  }

  /** A line does nothing for a vendor whose name is not used up to it. */
  lemma {:induction false} UnusedBefore(read: NumberReader, lines: seq<string>, c: nat, key: string)
    requires c < |lines| && key !in Known(read, lines, c + 1)
    ensures key !in Known(read, lines, c) && !FiledUnder(read, lines, c, key)
    ensures !NumbersVendor(read, lines[c], key) && OptionsAt(read, lines[c], key) == []
  {
    var used := UsedBy(read, lines[c], FiledAt(read, lines, c));
    KeysConcat(Lower, NamesUsed(read, lines, c), used);
    assert used != [] ==> Lower(used[0]) in Keys(Lower, used);
    DeclaresOnly(read, lines[c]);
  }

  lemma {:induction false} DeclaresOnly(read: NumberReader, line: string)
    ensures Declares(read, line) ==> !Numbers(read, line) && !Begins(line)
  {
    if Directs(line, "ATTRIBUTE") {
      OtherDirectives(line, "ATTRIBUTE");
    }
  }

  /** What a line does to one vendor; `was` is the vendor before, or a new one of its name. */
  ghost predicate EffectOn(read: NumberReader, was: Vendor, now: Vendor, line: string, filing: Option<Filing>)
    requires filing.Some? ==> Declares(read, line)
  {
    var key := Lower(was.name);
    && now.name == was.name
    && now.id == (if NumbersVendor(read, line, key) then read(Words(line)[2]).value else was.id)
    && Keys(Lower, now.options) == Keys(Lower, was.options) + Keys(Lower, NormalizeOptions(OptionsAt(read, line, key)))
    && SameDeclared(was.attributes + if filing.Some? && Lower(filing.value.vendor) == key
                                     then [AttributeOf(read, line, filing.value.options)] else [], now.attributes)
  }

  lemma {:induction false} MergedKeys(existing: seq<string>, additions: seq<string>)
    ensures Keys(Lower, MergeOptions(existing, additions))
         == Keys(Lower, existing) + Keys(Lower, NormalizeOptions(additions))
  {
    var seen, more := Keys(Lower, existing), NormalizeOptions(additions);
    DistinctKeys(Lower, seen, more);
    KeysConcat(Lower, existing, Distinct(Lower, seen, more));
  }

  /** The vendor at `v` before, or a new one of the same name. */
  function Was(before: seq<Vendor>, after: seq<Vendor>, v: nat): Vendor
    requires v < |after|
  {
    if v < |before| then before[v] else Vendor(after[v].name, 0, [], [])
  }

  lemma {:induction false} UpsertOn(vendors: seq<Vendor>, name: string, id: nat, options: seq<string>, v: nat)
    requires DistinctNames(vendors) && !Blank(name) && Trim(name) == name && v < |Upsert(vendors, name, id, options)|
    ensures var after := Upsert(vendors, name, id, options);
            var was, mine := Was(vendors, after, v), Lower(after[v].name) == Lower(name);
            && |vendors| <= |after|
            && (v >= |vendors| ==> mine && VendorIndex(vendors, Lower(name)) == |vendors|)
            && after[v].name == was.name && after[v].attributes == was.attributes
            && after[v].id == (if mine && id > 0 then id else was.id)
            && Keys(Lower, after[v].options)
               == Keys(Lower, was.options) + if mine then Keys(Lower, NormalizeOptions(options)) else {}
  {
    var i := VendorIndex(vendors, Lower(name));
    if i < |vendors| {
      MergedKeys(vendors[i].options, options);
      assert v != i ==> Lower(vendors[v].name) != Lower(name);
    }
  }

  lemma {:induction false} EffectOnEach(read: NumberReader, before: seq<Vendor>, after: seq<Vendor>, line: string,
                                        filing: Option<Filing>, v: nat)
    requires filing.Some? ==>
             Declares(read, line) && !Blank(filing.value.vendor) && Trim(filing.value.vendor) == filing.value.vendor
    requires Effect(read, before, after, line, filing) && DistinctNames(before) && v < |after|
    ensures EffectOn(read, Was(before, after, v), after[v], line, filing)
    ensures v >= |before| ==> VendorIndex(before, Lower(after[v].name)) == |before|
  {
    var words := Words(line);
    WordsAreWords(line);
    DeclaresOnly(read, line);
    NumbersOnly(read, line);
    assert NormalizeOptions([]) == [] && Keys(Lower, []) == {};
    if filing.Some? {
      FiledOn(read, before, after, line, filing.value, v);
    } else if Numbers(read, line) {
      UpsertOn(before, words[1], read(words[2]).value, words[3..], v);
      NothingFiled(Was(before, after, v).attributes);
    } else if Begins(line) {
      UpsertOn(before, words[1], 0, words[2..], v);
      NothingFiled(Was(before, after, v).attributes);
    } else {
      NothingFiled(Was(before, after, v).attributes);
    }
  }

  lemma {:induction false} NumbersOnly(read: NumberReader, line: string)
    ensures Numbers(read, line) ==> !Begins(line)
  {
    if Directs(line, "VENDOR") {
      OtherDirectives(line, "VENDOR");
    }
  }

  lemma {:induction false} NothingFiled(attributes: seq<Attribute>)
    ensures attributes + [] == attributes
  {
  }

  lemma {:induction false} FiledOn(read: NumberReader, before: seq<Vendor>, after: seq<Vendor>, line: string,
                                   filing: Filing, v: nat)
    requires Declares(read, line) && !Blank(filing.vendor) && Trim(filing.vendor) == filing.vendor
    requires FiledIn(before, after, filing.vendor, AttributeOf(read, line, filing.options))
    requires DistinctNames(before) && v < |after|
    ensures EffectOn(read, Was(before, after, v), after[v], line, Some(filing))
    ensures v >= |before| ==> VendorIndex(before, Lower(after[v].name)) == |before|
  {
    var vendors := Upsert(before, filing.vendor, 0, []);
    var i := VendorIndex(vendors, Lower(filing.vendor));
    DeclaresOnly(read, line);
    UpsertOn(before, filing.vendor, 0, [], v);
    UpsertOn(before, filing.vendor, 0, [], i);
    assert NormalizeOptions([]) == [] && Keys(Lower, []) == {};
    assert Lower(vendors[v].name) == Lower(filing.vendor) <==> v == i by {
      OneNamed(before, filing.vendor, v, i);
    }
    if v != i {
      NothingFiled(Was(before, after, v).attributes);
    }
  }

  lemma {:induction false} OneNamed(before: seq<Vendor>, name: string, v: nat, i: nat)
    requires DistinctNames(before) && !Blank(name) && Trim(name) == name
    requires var vendors := Upsert(before, name, 0, []);
             v < |vendors| && i < |vendors| && Lower(vendors[i].name) == Lower(name)
    ensures var vendors := Upsert(before, name, 0, []); Lower(vendors[v].name) == Lower(name) <==> v == i
  {
    UpsertOn(before, name, 0, [], v);
    UpsertOn(before, name, 0, [], i);
  }

  lemma {:induction false} HoldsThen(read: NumberReader, lines: seq<string>, c: nat, was: Vendor, now: Vendor)
    requires c < |lines| && Holds(read, lines, c, was) && EffectOn(read, was, now, lines[c], FiledAt(read, lines, c))
    ensures Holds(read, lines, c + 1, now)
  {
    var key := Lower(was.name);
    NormalizeConcat(OptionFields(read, lines, c, key), OptionsAt(read, lines[c], key));
    KeysConcat(Lower, NormalizeOptions(OptionFields(read, lines, c, key)),
               NormalizeOptions(OptionsAt(read, lines[c], key)));
    AttributesThen(read, lines, c, was, now);
  }

  lemma {:induction false} UnusedLines(read: NumberReader, lines: seq<string>, count: nat, key: string)
    requires count <= |lines| && key !in Known(read, lines, count)
    ensures LinesUnder(read, lines, count, key) == []
  {
    if count > 0 {
      UnusedBefore(read, lines, count - 1, key);
      UnusedLines(read, lines, count - 1, key);
    }
  }

  lemma {:induction false} UnusedNumber(read: NumberReader, lines: seq<string>, count: nat, key: string)
    requires count <= |lines| && key !in Known(read, lines, count)
    ensures VendorNumber(read, lines, count, key) == 0
  {
    if count > 0 {
      UnusedBefore(read, lines, count - 1, key);
      UnusedNumber(read, lines, count - 1, key);
    }
  }

  lemma {:induction false} UnusedFields(read: NumberReader, lines: seq<string>, count: nat, key: string)
    requires count <= |lines| && key !in Known(read, lines, count)
    ensures OptionFields(read, lines, count, key) == []
  {
    if count > 0 {
      UnusedBefore(read, lines, count - 1, key);
      UnusedFields(read, lines, count - 1, key);
    }
  }

  /** A name no line has used stands for a vendor with nothing. */
  lemma {:induction false} UnusedHolds(read: NumberReader, lines: seq<string>, count: nat, name: string)
    requires count <= |lines| && Lower(name) !in Known(read, lines, count)
    ensures Holds(read, lines, count, Vendor(name, 0, [], []))
  {
    UnusedLines(read, lines, count, Lower(name));
    UnusedNumber(read, lines, count, Lower(name));
    UnusedFields(read, lines, count, Lower(name));
    assert NormalizeOptions([]) == [];
  }

  lemma {:induction false} AttributesThen(read: NumberReader, lines: seq<string>, c: nat, was: Vendor, now: Vendor)
    requires c < |lines| && EffectOn(read, was, now, lines[c], FiledAt(read, lines, c))
    requires AttributesAre(read, lines, was.attributes, LinesUnder(read, lines, c, Lower(was.name)))
    ensures AttributesAre(read, lines, now.attributes, LinesUnder(read, lines, c + 1, Lower(was.name)))
  {
    var key := Lower(was.name);
    var before, after := LinesUnder(read, lines, c, key), LinesUnder(read, lines, c + 1, key);
    forall a | 0 <= a < |after|
      ensures after[a] < |lines| && FiledAt(read, lines, after[a]).Some?
      ensures Bare(now.attributes[a]) == DeclaredAt(read, lines, after[a])
    {
      if a < |before| {
        assert after[a] == before[a];
      }
    }
  }

  ghost predicate AllHold(read: NumberReader, lines: seq<string>, c: nat)
    requires c <= |lines|
  {
    forall v <- After(read, lines, c).vendors :: Holds(read, lines, c, v)
  }

  /** The step facts that the whole-text theorems use. */
  lemma {:induction false} StepOn(read: NumberReader, lines: seq<string>, c: nat, v: nat)
    requires c < |lines| && v < |After(read, lines, c + 1).vendors|
    ensures var before, after := After(read, lines, c).vendors, After(read, lines, c + 1).vendors;
            && EffectOn(read, Was(before, after, v), after[v], lines[c], FiledAt(read, lines, c))
            && (v >= |before| ==> Lower(after[v].name) !in Known(read, lines, c))
  {
    var before, after := After(read, lines, c).vendors, After(read, lines, c + 1).vendors;
    VendorsExactly(read, lines, c);
    LineHappens(read, lines, c);
    NamesKnown(before, NamesUsed(read, lines, c));
    if FiledAt(read, lines, c).Some? {
      FiledNameTrimmed(read, lines, c);
    }
    EffectOnEach(read, before, after, lines[c], FiledAt(read, lines, c), v);
  }

  lemma {:induction false} FiledNameTrimmed(read: NumberReader, lines: seq<string>, c: nat)
    requires c < |lines| && Kept(read, lines, c) && FiledAt(read, lines, c).Some?
    ensures var vendor := FiledAt(read, lines, c).value.vendor; !Blank(vendor) && Trim(vendor) == vendor
  {
    var before, words := After(read, lines, c).vendors, Words(lines[c]);
    WordsAreWords(lines[c]);
    NamesKnown(before, NamesUsed(read, lines, c));
    BlockIsWord(lines, c);
    FilingTrimmed(Known(read, lines, c), before, BlockVendor(lines, c), words[1], words[4..]);
  }

  lemma {:induction false} HoldNext(read: NumberReader, lines: seq<string>, c: nat)
    requires c < |lines| && AllHold(read, lines, c)
    ensures AllHold(read, lines, c + 1)
  {
    var before, after := After(read, lines, c).vendors, After(read, lines, c + 1).vendors;
    forall v | 0 <= v < |after| ensures Holds(read, lines, c + 1, after[v]) {
      StepOn(read, lines, c, v);
      if v >= |before| {
        UnusedHolds(read, lines, c, after[v].name);
      }
      HoldsThen(read, lines, c, Was(before, after, v), after[v]);
    }
  }

  lemma {:induction false} HoldThroughout(read: NumberReader, lines: seq<string>, c: nat)
    requires c <= |lines|
    ensures AllHold(read, lines, c)
  {
    assert lines[..0] == [];
    for i := 0 to c
      invariant AllHold(read, lines, i)
    {
      HoldNext(read, lines, i);
    }
  }

  /** Every vendor of a parsed text has the number of its last VENDOR line, the attributes of the lines
      filed under it, in order, and the options of its VENDOR and BEGIN-VENDOR lines. */
  lemma {:induction false} VendorHolds(read: NumberReader, lines: seq<string>, v: nat)
    requires v < |ParseLines(read, EMPTY_PARSE, 0, lines).vendors|
    ensures Holds(read, lines, |lines|, ParseLines(read, EMPTY_PARSE, 0, lines).vendors[v])
  {
    assert lines[..|lines|] == lines;
    HoldThroughout(read, lines, |lines|);
  }

  // ----- attributes with their values

  lemma {:induction false} LinesUnderNext(read: NumberReader, lines: seq<string>, c: nat, key: string)
    requires c < |lines|
    ensures LinesUnder(read, lines, c + 1, key)
         == LinesUnder(read, lines, c, key) + if FiledUnder(read, lines, c, key) then [c] else []
  {
  }

  /** The lines filed under a vendor are exactly those whose words say so. */
  lemma {:induction false} LinesUnderMembers(read: NumberReader, lines: seq<string>, count: nat, key: string, c: nat)
    requires c < count <= |lines|
    ensures c in LinesUnder(read, lines, count, key) <==> FiledUnder(read, lines, c, key)
    decreases count
  {
    LinesUnderNext(read, lines, count - 1, key);
    LinesUnderAscend(read, lines, count - 1, key);
    if c < count - 1 {
      LinesUnderMembers(read, lines, count - 1, key, c);
    }
  }

  /** They come in order, each once. */
  lemma {:induction false} LinesUnderAscend(read: NumberReader, lines: seq<string>, count: nat, key: string)
    requires count <= |lines|
    ensures var from := LinesUnder(read, lines, count, key);
            && (forall i :: 0 <= i < |from| ==> from[i] < count)
            && forall i, j :: 0 <= i < j < |from| ==> from[i] < from[j]
  {
    if count > 0 {
      LinesUnderNext(read, lines, count - 1, key);
      LinesUnderAscend(read, lines, count - 1, key);
    }
  }

  lemma {:induction false} LinesUnderPrefix(read: NumberReader, lines: seq<string>, c: nat, count: nat, key: string)
    requires c <= count <= |lines|
    ensures LinesUnder(read, lines, c, key) <= LinesUnder(read, lines, count, key)
  {
    if c < count {
      LinesUnderPrefix(read, lines, c, count - 1, key);
    }
  }

  ghost predicate NamesStay(a: seq<Vendor>, b: seq<Vendor>) {
    |a| <= |b| && forall v :: 0 <= v < |a| ==> a[v].name == b[v].name
  }

  lemma {:induction false} NamesStayNext(read: NumberReader, lines: seq<string>, c: nat)
    requires c < |lines|
    ensures NamesStay(After(read, lines, c).vendors, After(read, lines, c + 1).vendors)
  {
    var before, after := After(read, lines, c).vendors, After(read, lines, c + 1).vendors;
    AfterNext(read, lines, c);
    VendorsExactly(read, lines, c);
    VendorsExactly(read, lines, c + 1);
    DistinctConcat(Lower, {}, NamesUsed(read, lines, c), UsedBy(read, lines[c], FiledAt(read, lines, c)));
    var a, b := Mapped(NameOf, before), Mapped(NameOf, after);
    assert a <= b;
    forall v | 0 <= v < |before| ensures before[v].name == after[v].name {
      assert a[v] == b[v];
    }
  }

  lemma {:induction false} NamesStayThroughout(read: NumberReader, lines: seq<string>, c: nat, count: nat)
    requires c <= count <= |lines|
    ensures NamesStay(After(read, lines, c).vendors, After(read, lines, count).vendors)
  {
    for i := c to count
      invariant NamesStay(After(read, lines, c).vendors, After(read, lines, i).vendors)
    {
      NamesStayNext(read, lines, i);
    }
  }

  /** The line that creates the attribute at a place is the line in that place among those filed under
      the vendor. */
  lemma {:induction false} CreatedByFiling(read: NumberReader, lines: seq<string>, c: nat, l: Location)
    requires c < |lines| && !Has(After(read, lines, c).vendors, l) && Has(After(read, lines, c + 1).vendors, l)
    ensures var from := LinesUnder(read, lines, c + 1, Lower(After(read, lines, c + 1).vendors[l.vendor].name));
            l.attribute < |from| && from[l.attribute] == c
  {
    var before, after := After(read, lines, c).vendors, After(read, lines, c + 1).vendors;
    var key := Lower(after[l.vendor].name);
    StepOn(read, lines, c, l.vendor);
    HoldThroughout(read, lines, c);
    HoldThroughout(read, lines, c + 1);
    assert after[l.vendor] in after;
    assert |LinesUnder(read, lines, c, key)| <= l.attribute by {
      if l.vendor < |before| {
        assert before[l.vendor] in before;
      } else {
        UnusedHolds(read, lines, c, after[l.vendor].name);
      }
    }
  }

  /** An attribute is what line `c` declares, with the VALUE lines of its name after that line. */
  ghost predicate IsDeclared(read: NumberReader, lines: seq<string>, c: nat, attribute: Attribute) {
    && c < |lines| && FiledAt(read, lines, c).Some?
    && var declared := DeclaredAt(read, lines, c);
    attribute == declared.(values := ValuesNamed(lines[c + 1..], Lower(declared.name)))
  }

  /** The attributes of a vendor of the parsed text are those of the lines filed under it, in order. */
  lemma {:induction false} AttributesExactly(read: NumberReader, lines: seq<string>, l: Location)
    requires Has(ParseLines(read, EMPTY_PARSE, 0, lines).vendors, l)
    ensures var vendor := ParseLines(read, EMPTY_PARSE, 0, lines).vendors[l.vendor];
            var from := LinesUnder(read, lines, |lines|, Lower(vendor.name));
            && |from| == |vendor.attributes|
            && IsDeclared(read, lines, from[l.attribute], vendor.attributes[l.attribute])
  {
    var vendor := ParseLines(read, EMPTY_PARSE, 0, lines).vendors[l.vendor];
    VendorHolds(read, lines, l.vendor);
    var c := AttributeValues(read, lines, l);
    FiledFirst(read, lines, c, l);
    BareWithValues(vendor.attributes[l.attribute], DeclaredAt(read, lines, c));
  }

  lemma {:induction false} BareWithValues(a: Attribute, declared: Attribute)
    requires Bare(a) == declared
    ensures a == declared.(values := a.values) && a.name == declared.name
  {
  }

  lemma {:induction false} FiledFirst(read: NumberReader, lines: seq<string>, c: nat, l: Location)
    requires c < |lines| && !Has(After(read, lines, c).vendors, l) && Has(After(read, lines, c + 1).vendors, l)
    requires l.vendor < |ParseLines(read, EMPTY_PARSE, 0, lines).vendors|
    ensures var key := Lower(ParseLines(read, EMPTY_PARSE, 0, lines).vendors[l.vendor].name);
            var from := LinesUnder(read, lines, |lines|, key);
            l.attribute < |from| && from[l.attribute] == c
  {
    var key := Lower(After(read, lines, c + 1).vendors[l.vendor].name);
    assert lines[..|lines|] == lines;
    CreatedByFiling(read, lines, c, l);
    NamesStayThroughout(read, lines, c + 1, |lines|);
    LinesUnderPrefix(read, lines, c + 1, |lines|, key);
  }

  // ----- warnings

  /** What is wrong with a line. */
  function IssueAt(read: NumberReader, line: string): Option<Issue> {
    var words := Words(line);
    if Directs(line, "VENDOR") && |words| < 3 then Some(VendorFieldsMissing)
    else if Directs(line, "VENDOR") && !IsNumeral(read, words[2]) then Some(VendorIDInvalid)
    else if Directs(line, "BEGIN-VENDOR") && |words| < 2 then Some(BeginNameMissing)
    else if Directs(line, "ATTRIBUTE") && |words| < 4 then Some(AttributeFieldsMissing)
    else if Directs(line, "ATTRIBUTE") && !IsNumeral(read, words[2]) && !ValidOID(words[2])
    then Some(AttributeNumberInvalid)
    else if Directs(line, "VALUE") && |words| < 4 then Some(ValueFieldsMissing)
    else None
  }

  function IssuesIn(read: NumberReader, lines: seq<string>, count: nat): seq<Warning>
    requires count <= |lines|
  {
    if count == 0 then []
    else
      IssuesIn(read, lines, count - 1) +
      match IssueAt(read, lines[count - 1]) case None => [] case Some(issue) => [Warning(count, issue)]
  }

  lemma {:induction false} LineWarns(read: NumberReader, st: Parse, n: nat, line: string)
    ensures ParseLine(read, st, n, line).warnings
         == st.warnings + match IssueAt(read, line) case None => [] case Some(issue) => [Warning(n, issue)]
  {
    WordsAreWords(line);
    assert st.warnings + [] == st.warnings;
    if Directs(line, "VENDOR") {
      OtherDirectives(line, "VENDOR");
    } else if Directs(line, "BEGIN-VENDOR") {
      OtherDirectives(line, "BEGIN-VENDOR");
    } else if Ends(line) {
      OtherDirectives(line, "END-VENDOR");
    } else if Directs(line, "ATTRIBUTE") {
      OtherDirectives(line, "ATTRIBUTE");
    }
  }

  /** The warnings of a text are exactly those of its faulty lines, in order and by line number. */
  lemma {:induction false} WarningsExactly(read: NumberReader, lines: seq<string>, c: nat)
    requires c <= |lines|
    ensures After(read, lines, c).warnings == IssuesIn(read, lines, c)
  {
    assert lines[..0] == [];
    for i := 0 to c
      invariant After(read, lines, i).warnings == IssuesIn(read, lines, i)
    {
      AfterNext(read, lines, i);
      LineWarns(read, After(read, lines, i), i + 1, lines[i]);
    }
  }
}
