/** Release keys and name normalisation (configs/dictionary_release_profiles.go): the dash-folding
    fixpoint loop, alias tables, and the prefix slice of attribute names. */
module ReleaseKeys {
  import opened Text
  import opened Wrappers

  // ----- the key

  /** The built-in release profile, named in every report. */
  const PROFILE_ID := "freeradius-3.2.8"

  lemma {:induction false} ProfileIsText()
    ensures !Blank(PROFILE_ID)
  {
    BlankIsAllSpace(PROFILE_ID);
    assert PROFILE_ID[0] == 'f';
  }

  function DashChar(c: char): char {
    if c == '_' || c == ' ' then '-' else c
  }

  function DashAll(s: string): (r: string)
    ensures |r| == |s|
  {
    seq(|s|, i requires 0 <= i < |s| => DashChar(s[i]))
  }

  /** `strings.ReplaceAll(s, "--", "-")`: left to right, without overlaps. */
  function HalveDashes(s: string): string {
    if |s| < 2 then s
    else if s[0] == '-' && s[1] == '-' then "-" + HalveDashes(s[2..])
    else [s[0]] + HalveDashes(s[1..])
  }

  /** Every run of dashes becomes one dash, in one pass. */
  function Collapse(s: string): string {
    if |s| < 2 then s
    else if s[0] == '-' && s[1] == '-' then Collapse(s[1..])
    else [s[0]] + Collapse(s[1..])
  }

  ghost predicate NoDoubleDash(s: string) {
    forall i :: 0 <= i < |s| - 1 ==> !(s[i] == '-' && s[i + 1] == '-')
  }

  /** The value of `normalizedDictionaryReleaseKey`. */
  function ReleaseKey(value: string): string {
    Collapse(DashAll(Lower(Trim(value))))
  }

  /** `normalizedDictionaryReleaseKey` as it runs: the loop reaches its fixpoint, and that fixpoint is
      the one-pass collapse. */
  method NormalizedReleaseKey(value: string) returns (key: string)
    ensures key == ReleaseKey(value)
  {
    key := DashAll(Lower(Trim(value)));
    while Contains(key, "--")
      invariant Collapse(key) == ReleaseKey(value)
      decreases |key|
    {
      HalveShrinks(key);
      CollapseHalved(key);
      key := HalveDashes(key);
    }
    DoubleDash(key);
    CollapseFixed(key);
  }

  lemma {:induction false} HalveShrinks(s: string)
    ensures |HalveDashes(s)| <= |s|
    ensures Contains(s, "--") ==> |HalveDashes(s)| < |s|
  {
    if |s| >= 2 {
      if s[0] == '-' && s[1] == '-' {
        HalveShrinks(s[2..]);
      } else {
        assert !("--" <= s);
        HalveShrinks(s[1..]);
      }
    } else {
      DoubleDash(s);
    }
  }

  lemma {:induction false} HalveHead(s: string)
    ensures s != "" ==> HalveDashes(s) != "" && HalveDashes(s)[0] == s[0]
  {
  }

  lemma {:induction false} CollapseCons(c: char, s: string)
    ensures Collapse([c] + s) == if s != "" && c == '-' && s[0] == '-' then Collapse(s) else [c] + Collapse(s)
  {
    assert ([c] + s)[1..] == s;
  }

  lemma {:induction false} CollapseHalved(s: string)
    ensures Collapse(HalveDashes(s)) == Collapse(s)
    decreases |s|
  {
    if |s| >= 2 {
      if s[0] == '-' && s[1] == '-' {
        var t := s[2..];
        CollapseHalved(t);
        HalveHead(t);
        CollapseCons('-', HalveDashes(t));
        CollapseCons('-', t);
        assert s[1..] == "-" + t;
      } else {
        var t := s[1..];
        CollapseHalved(t);
        HalveHead(t);
        CollapseCons(s[0], HalveDashes(t));
        CollapseCons(s[0], t);
      }
    }
  }

  lemma {:induction false} DoubleDash(s: string)
    ensures Contains(s, "--") <==> !NoDoubleDash(s)
  {
    if |s| >= 2 {
      DoubleDash(s[1..]);
      if s[0] == '-' && s[1] == '-' {
        assert "--" <= s;
      } else {
        assert !("--" <= s);
        if !NoDoubleDash(s) {
          var i :| 0 <= i < |s| - 1 && s[i] == '-' && s[i + 1] == '-';
          assert s[1..][i - 1] == '-' && s[1..][i] == '-';
        }
        if !NoDoubleDash(s[1..]) {
          var i :| 0 <= i < |s[1..]| - 1 && s[1..][i] == '-' && s[1..][i + 1] == '-';
          assert s[i + 1] == '-' && s[i + 2] == '-';
        }
      }
    }
  }

  lemma {:induction false} CollapseFixed(s: string)
    requires NoDoubleDash(s)
    ensures Collapse(s) == s
  {
    if |s| >= 2 {
      assert !(s[0] == '-' && s[0 + 1] == '-');
      forall i | 0 <= i < |s[1..]| - 1 ensures !(s[1..][i] == '-' && s[1..][i + 1] == '-') {
        assert !(s[i + 1] == '-' && s[i + 1 + 1] == '-');
      }
      CollapseFixed(s[1..]);
    }
  }

  /** A collapsed text has no double dash, keeps its ends, and draws its characters from the original. */
  lemma {:induction false} CollapseFacts(s: string)
    ensures NoDoubleDash(Collapse(s)) && |Collapse(s)| <= |s|
    ensures s != "" ==> Collapse(s) != "" && Collapse(s)[0] == s[0] && Collapse(s)[|Collapse(s)| - 1] == s[|s| - 1]
    ensures forall c <- Collapse(s) :: c in s
  {
    if |s| >= 2 {
      CollapseFacts(s[1..]);
    }
  }

  lemma {:induction false} KeyIsPlain(value: string)
    ensures var k := ReleaseKey(value);
            && NoDoubleDash(k) && CleanEnds(IsSpace, k) && |k| <= |Trim(value)| <= |value|
            && Lower(k) == k && DashAll(k) == k && (k == "" <==> Blank(value))
  {
    var p := DashAll(Lower(Trim(value)));
    TrimTrim(value);
    CollapseFacts(p);
    var k := Collapse(p);
    forall i | 0 <= i < |k| ensures LowerChar(k[i]) == k[i] && DashChar(k[i]) == k[i] {
      assert k[i] in k && k[i] in p;
    }
    assert Lower(k) == k && DashAll(k) == k;
  }

  lemma {:induction false} PlainIsKey(k: string)
    requires NoDoubleDash(k) && CleanEnds(IsSpace, k) && Lower(k) == k && DashAll(k) == k
    ensures ReleaseKey(k) == k
  {
    StripFixed(IsSpace, k);
    CollapseFixed(k);
  }

  /** Key normalisation is idempotent and never lengthens a text. */
  lemma {:induction false} KeyIdempotent(value: string)
    ensures ReleaseKey(ReleaseKey(value)) == ReleaseKey(value)
    ensures |ReleaseKey(value)| <= |value|
  {
    KeyIsPlain(value);
    PlainIsKey(ReleaseKey(value));
  }

  // ----- vendor names

  datatype VendorAlias = VendorAlias(alias: string, canonical: string)

  predicate Matches(row: VendorAlias, key: string) {
    ReleaseKey(row.alias) == key || ReleaseKey(row.canonical) == key
  }

  function FirstMatch(table: seq<VendorAlias>, key: string): (i: nat)
    ensures i <= |table|
    ensures i < |table| ==> Matches(table[i], key)
    ensures forall j :: 0 <= j < i ==> !Matches(table[j], key)
  {
    if table == [] || Matches(table[0], key) then 0 else 1 + FirstMatch(table[1..], key)
  }

  /** `NormalizeDictionaryVendorName`. */
  function NormalizeVendor(table: seq<VendorAlias>, vendor: string): string {
    if Blank(vendor) then ""
    else
      var i := FirstMatch(table, ReleaseKey(Trim(vendor)));
      if i < |table| then table[i].canonical else Trim(vendor)
  }

  /** An alias that no earlier row answers for. */
  predicate Unshadowed(table: seq<VendorAlias>, i: nat)
    requires i < |table|
  {
    !Blank(table[i].alias) && FirstMatch(table, ReleaseKey(table[i].alias)) == i
  }

  /** The first row that matches the canonical name of row `i` names the same vendor. */
  predicate Settled(table: seq<VendorAlias>, i: nat)
    requires i < |table|
  {
    var c := table[i].canonical;
    if Blank(c) then c == ""
    else var j := FirstMatch(table, ReleaseKey(c)); j < |table| && table[j].canonical == c
  }

  lemma {:induction false} TrimmedKey(value: string)
    ensures ReleaseKey(Trim(value)) == ReleaseKey(value)
  {
    TrimTrim(value);
  }

  /** Vendor normalisation is idempotent on every input exactly when every row whose alias is not
      shadowed is settled: a finite check of the table. */
  lemma {:induction false} VendorIdempotentExactly(table: seq<VendorAlias>)
    ensures (forall v :: NormalizeVendor(table, NormalizeVendor(table, v)) == NormalizeVendor(table, v))
       <==> (forall i :: 0 <= i < |table| && Unshadowed(table, i) ==> Settled(table, i))
  {
    if forall v :: NormalizeVendor(table, NormalizeVendor(table, v)) == NormalizeVendor(table, v) {
      forall i | 0 <= i < |table| && Unshadowed(table, i) ensures Settled(table, i) {
        var a, c := table[i].alias, table[i].canonical;
        TrimmedKey(a);
        TrimmedKey(c);
        assert NormalizeVendor(table, a) == c;
        assert NormalizeVendor(table, c) == c;
        assert Matches(table[i], ReleaseKey(c));
      }
    }
    if forall i :: 0 <= i < |table| && Unshadowed(table, i) ==> Settled(table, i) {
      forall v ensures NormalizeVendor(table, NormalizeVendor(table, v)) == NormalizeVendor(table, v) {
        VendorSettles(table, v);
      }
    }
  }

  lemma {:induction false} VendorSettles(table: seq<VendorAlias>, v: string)
    requires forall i :: 0 <= i < |table| && Unshadowed(table, i) ==> Settled(table, i)
    ensures NormalizeVendor(table, NormalizeVendor(table, v)) == NormalizeVendor(table, v)
  {
    TrimTrim(v);
    TrimmedKey(v);
    var key := ReleaseKey(v);
    var i := FirstMatch(table, key);
    if !Blank(v) && i < |table| {
      KeyIsPlain(v);
      KeyIsPlain(table[i].alias);
      var c := table[i].canonical;
      KeyIsPlain(c);
      TrimmedKey(c);
      if ReleaseKey(table[i].alias) == key {
        assert Unshadowed(table, i);
        assert Settled(table, i);
      }
    }
  }

  /** A simple sufficient check: whatever matches a canonical name has that canonical name. */
  lemma {:induction false} ConsistentTableSettles(table: seq<VendorAlias>, v: string)
    requires forall i, j ::
             0 <= i < |table| && 0 <= j < |table| && Matches(table[j], ReleaseKey(table[i].canonical)) ==>
             table[j].canonical == table[i].canonical
    requires forall i :: 0 <= i < |table| ==> !Blank(table[i].canonical)
    ensures NormalizeVendor(table, NormalizeVendor(table, v)) == NormalizeVendor(table, v)
  {
    forall i | 0 <= i < |table| && Unshadowed(table, i) ensures Settled(table, i) {
      var j := FirstMatch(table, ReleaseKey(table[i].canonical));
      assert Matches(table[i], ReleaseKey(table[i].canonical));
    }
    VendorSettles(table, v);
  }

  ghost predicate Complete(table: seq<VendorAlias>) {
    forall i :: 0 <= i < |table| ==> ReleaseKey(table[i].alias) != "" && !Blank(table[i].canonical)
  }

  ghost predicate Unambiguous(table: seq<VendorAlias>) {
    forall i, j :: 0 <= i < j < |table| && ReleaseKey(table[i].alias) == ReleaseKey(table[j].alias) ==>
      table[i].canonical == table[j].canonical
  }

  /** With a validated table, a name that is there does not normalise to nothing. */
  lemma {:induction false} NormalizedIsText(table: seq<VendorAlias>, vendor: string)
    requires Complete(table) && !Blank(vendor)
    ensures !Blank(NormalizeVendor(table, vendor))
  {
    TrimTrim(vendor);
  }

  predicate Recorded(row: VendorAlias, seen: map<string, string>) {
    var key := ReleaseKey(row.alias);
    key != "" && !Blank(row.canonical) && key in seen && seen[key] == row.canonical
  }

  lemma {:induction false} Clashes(table: seq<VendorAlias>, n: nat, seen: map<string, string>)
    requires n < |table| && forall i :: 0 <= i < n ==> Recorded(table[i], seen)
    requires forall k <- seen :: exists i :: 0 <= i < n && ReleaseKey(table[i].alias) == k
    requires var key := ReleaseKey(table[n].alias); key in seen && seen[key] != table[n].canonical
    ensures !Unambiguous(table)
  {
    var i :| 0 <= i < n && ReleaseKey(table[i].alias) == ReleaseKey(table[n].alias);
    assert Recorded(table[i], seen);
  }

  /** `validateDictionaryVendorAliases`: accepts exactly the tables with no blank key or vendor in
      which one alias key never stands for two vendors. */
  method ValidateVendorAliases(table: seq<VendorAlias>) returns (ok: bool)
    ensures ok <==> Complete(table) && Unambiguous(table)
  {
    var seen: map<string, string> := map[];
    for n := 0 to |table|
      invariant forall i :: 0 <= i < n ==> Recorded(table[i], seen)
      invariant forall k <- seen :: exists i :: 0 <= i < n && ReleaseKey(table[i].alias) == k
    {
      var key := ReleaseKey(table[n].alias);
      if key == "" || Blank(table[n].canonical) {
        return false;
      }
      if key in seen && seen[key] != table[n].canonical {
        Clashes(table, n, seen);
        return false;
      }
      seen := seen[key := table[n].canonical];
    }
    ok := true;
  }

  // ----- attribute prefixes

  /** The parts around the first dot. */
  function CutDot(s: string): Option<(string, string)> {
    if s == "" then None
    else if s[0] == '.' then Some(("", s[1..]))
    else match CutDot(s[1..]) case None => None case Some(p) => Some(([s[0]] + p.0, p.1))
  }

  /** `trimDictionaryAttributePrefix`; `None` is the slice that would leave the text. */
  function TrimAttributePrefix(table: seq<VendorAlias>, attribute: string, vendor: string): Option<string> {
    var a := Trim(attribute);
    var v := NormalizeVendor(table, vendor);
    var vendorKey := ReleaseKey(v);
    if vendorKey != "" && vendorKey + "-" <= ReleaseKey(a) then
      if |v| + 1 <= |a| then Some(a[|v| + 1..]) else None
    else
      match CutDot(a)
      case Some((prefix, suffix)) => if ReleaseKey(prefix) == vendorKey then Some(suffix) else Some(a)
      case None => Some(a)
  }

  predicate PrefixSafe(canonical: string) {
    var k := ReleaseKey(canonical);
    k == "" || k[|k| - 1] == '-' || |canonical| == |k|
  }

  /** The slice stays in bounds for every attribute exactly when the canonical vendor name is as long as
      its key, or its key is empty or ends in a dash. */
  lemma {:induction false} PrefixSliceExactly(table: seq<VendorAlias>, vendor: string)
    ensures (forall attribute :: TrimAttributePrefix(table, attribute, vendor).Some?) <==>
            PrefixSafe(NormalizeVendor(table, vendor))
  {
    var v := NormalizeVendor(table, vendor);
    if PrefixSafe(v) {
      forall attribute ensures TrimAttributePrefix(table, attribute, vendor).Some? {
        SafeSlice(table, attribute, vendor);
      }
    } else {
      UnsafeSlice(table, vendor);
    }
  }

  lemma {:induction false} SafeSlice(table: seq<VendorAlias>, attribute: string, vendor: string)
    requires PrefixSafe(NormalizeVendor(table, vendor))
    ensures TrimAttributePrefix(table, attribute, vendor).Some?
  {
    var k, a := ReleaseKey(NormalizeVendor(table, vendor)), Trim(attribute);
    KeyIsPlain(NormalizeVendor(table, vendor));
    KeyIsPlain(a);
    if k != "" && k + "-" <= ReleaseKey(a) {
      assert ReleaseKey(a)[|k| - 1] == k[|k| - 1] && ReleaseKey(a)[|k| - 1 + 1] == '-';
    }
  }

  lemma {:induction false} UnsafeSlice(table: seq<VendorAlias>, vendor: string)
    requires !PrefixSafe(NormalizeVendor(table, vendor))
    ensures TrimAttributePrefix(table, ReleaseKey(NormalizeVendor(table, vendor)) + "-", vendor).None?
  {
    var k := ReleaseKey(NormalizeVendor(table, vendor));
    var attribute := k + "-";
    KeyIsPlain(NormalizeVendor(table, vendor));
    StripFixed(IsSpace, attribute);
    forall i | 0 <= i < |attribute| ensures LowerChar(attribute[i]) == attribute[i]
      && DashChar(attribute[i]) == attribute[i] {
      assert i < |k| ==> Lower(k)[i] == k[i] && DashAll(k)[i] == k[i];
    }
    assert Lower(attribute) == attribute && DashAll(attribute) == attribute;
    PlainIsKey(attribute);
  }

  /** No alias row answers for a vendor. */
  predicate Unaliased(table: seq<VendorAlias>, vendor: string) {
    FirstMatch(table, ReleaseKey(vendor)) == |table|
  }

  lemma {:induction false} UnaliasedName(table: seq<VendorAlias>, vendor: string)
    requires Unaliased(table, vendor) && vendor != "" && CleanEnds(IsSpace, vendor)
    ensures NormalizeVendor(table, vendor) == vendor == Trim(vendor)
  {
    StripFixed(IsSpace, vendor);
  }

  /** The concrete failure, whatever the alias rows for other vendors: the key of `a__b` is `a-b`, so
      `a-b-` has its prefix but is too short to cut. */
  lemma {:induction false} UnderscoresOverrun(table: seq<VendorAlias>)
    requires Unaliased(table, "a__b")
    ensures TrimAttributePrefix(table, "a-b-", "a__b").None?
  {
    KeyOfUnderscores();
    UnaliasedName(table, "a__b");
    StripFixed(IsSpace, "a-b-");
    assert "a-b" + "-" == "a-b-";
  }

  lemma {:induction false} KeyOfUnderscores()
    ensures ReleaseKey("a__b") == "a-b" && ReleaseKey("a-b-") == "a-b-"
  {
    StripFixed(IsSpace, "a__b");
    StripFixed(IsSpace, "a-b-");
    assert Lower("a__b") == "a__b" && Lower("a-b-") == "a-b-";
    assert DashAll("a__b") == "a--b" && DashAll("a-b-") == "a-b-";
    assert Collapse("a--b") == "a-b" by {
      assert Collapse("b") == "b" by { assert "b"[1..] == ""; }
      assert "-b"[1..] == "b" && "--b"[1..] == "-b" && "a--b"[1..] == "--b";
      assert Collapse("-b") == "-b" && Collapse("--b") == "-b";
    }
    PlainIsKey("a-b-");
  }

  // ----- attribute names

  datatype AttributeAlias = AttributeAlias(vendor: string, alias: string, canonical: string)

  /** The alias rows of a release profile. */
  datatype Tables = Tables(vendors: seq<VendorAlias>, attributes: seq<AttributeAlias>)

  /** The canonical name of the first row that applies to the vendor and carries one of the two keys. */
  function FirstAlias(rows: seq<AttributeAlias>, vendorKey: string, keys: set<string>): Option<string> {
    if rows == [] then None
    else if (vendorKey == "" || ReleaseKey(rows[0].vendor) == vendorKey)
      && (ReleaseKey(rows[0].alias) in keys || ReleaseKey(rows[0].canonical) in keys)
    then Some(rows[0].canonical)
    else FirstAlias(rows[1..], vendorKey, keys)
  }

  /** `NormalizeDictionaryAttributeName`; `None` is the slice that would leave the text. */
  function NormalizeAttribute(tables: Tables, vendor: string, attribute: string): Option<string> {
    var a := Trim(attribute);
    if a == "" then Some("")
    else
      match TrimAttributePrefix(tables.vendors, a, vendor)
      case None => None
      case Some(trimmed) =>
        var found := FirstAlias(tables.attributes, ReleaseKey(NormalizeVendor(tables.vendors, vendor)),
                                {ReleaseKey(a), ReleaseKey(trimmed)});
        Some(if found.Some? then found.value else a)
  }

  /** Normalising an attribute name is defined exactly when its prefix slice is in bounds. */
  lemma {:induction false} AttributeDefined(tables: Tables, vendor: string, attribute: string)
    ensures NormalizeAttribute(tables, vendor, attribute).Some? <==>
            TrimAttributePrefix(tables.vendors, attribute, vendor).Some?
  {
    TrimTrim(attribute);
    KeyIdempotent(Trim(attribute));
  }
}
