/** What the name normalisers of a release profile give for a vendor or attribute name, said about the
    alias rows and the spelling of the name (configs/dictionary_release_profiles.go). */
module NameSpellings {
  import opened Text
  import opened Wrappers
  import opened ReleaseKeys

  // ----- vendors

  /** Row `i` is the first one whose alias or vendor has the key. */
  ghost predicate FirstVendorRow(table: seq<VendorAlias>, key: string, i: nat) {
    && i < |table| && HasVendorKey(table[i], key)
    && forall j :: 0 <= j < i ==> !HasVendorKey(table[j], key)
  }

  predicate HasVendorKey(row: VendorAlias, key: string) {
    ReleaseKey(row.alias) == key || ReleaseKey(row.canonical) == key
  }

  /** A vendor name becomes the vendor of the first row with its key, and stays itself, trimmed, without
      such a row; a blank one becomes nothing. */
  lemma {:induction false} VendorSpelling(table: seq<VendorAlias>, vendor: string)
    ensures Blank(vendor) ==> NormalizeVendor(table, vendor) == ""
    ensures !Blank(vendor) ==> forall i: nat :: FirstVendorRow(table, ReleaseKey(vendor), i) ==>
              NormalizeVendor(table, vendor) == table[i].canonical
    ensures !Blank(vendor) && (forall row <- table :: !HasVendorKey(row, ReleaseKey(vendor))) ==>
              NormalizeVendor(table, vendor) == Trim(vendor)
  {
    TrimTrim(vendor);
    var first := FirstMatch(table, ReleaseKey(Trim(vendor)));
    assert ReleaseKey(Trim(vendor)) == ReleaseKey(vendor);
    forall i: nat | FirstVendorRow(table, ReleaseKey(vendor), i) ensures i == first {
      assert Matches(table[i], ReleaseKey(vendor)) <==> HasVendorKey(table[i], ReleaseKey(vendor));
    }
    if first < |table| {
      assert table[first] in table && HasVendorKey(table[first], ReleaseKey(vendor));
    }
  }

  // ----- attribute prefixes

  lemma {:induction false} CutDotExactly(s: string, prefix: string, suffix: string)
    ensures CutDot(s) == Some((prefix, suffix)) <==> s == prefix + "." + suffix && '.' !in prefix
    ensures CutDot(s).None? <==> '.' !in s
  {
    if s != "" {
      if s[0] == '.' {
        assert s == "" + "." + s[1..];
        if s == prefix + "." + suffix && '.' !in prefix {
          FirstChar(prefix, suffix);
        }
      } else {
        var head := if prefix == "" then "" else prefix[1..];
        CutDotExactly(s[1..], head, suffix);
        if prefix != "" {
          assert prefix == [prefix[0]] + head;
          assert s == prefix + "." + suffix <==> s[0] == prefix[0] && s[1..] == head + "." + suffix;
        }
      }
    }
  }

  lemma {:induction false} FirstChar(prefix: string, suffix: string)
    ensures prefix != "" ==> prefix[0] in prefix && (prefix + "." + suffix)[0] == prefix[0]
  {
  }

  /** Collapsing keeps a text without double dashes that a dash follows. */
  lemma {:induction false} CollapseAfter(p: string, q: string)
    requires NoDoubleDash(p) && (p == "" || p[|p| - 1] != '-')
    ensures p + "-" <= Collapse(p + "-" + q)
    decreases |p|
  {
    var s := p + "-" + q;
    if p == "" {
      CollapseKeepsDash(s);
    } else {
      assert s[1..] == p[1..] + "-" + q;
      CollapseAfter(p[1..], q);
    }
  }

  lemma {:induction false} CollapseKeepsDash(s: string)
    requires s != "" && s[0] == '-'
    ensures Collapse(s) != "" && Collapse(s)[0] == '-'
    decreases |s|
  {
    if |s| >= 2 && s[1] == '-' {
      CollapseKeepsDash(s[1..]);
    }
  }

  lemma {:induction false} CollapseShortens(s: string)
    ensures |Collapse(s)| <= |s| && (|Collapse(s)| == |s| ==> NoDoubleDash(s) && Collapse(s) == s)
    decreases |s|
  {
    if |s| >= 2 {
      CollapseShortens(s[1..]);
      if !(s[0] == '-' && s[1] == '-') && |Collapse(s)| == |s| {
        ConsKeeps(s);
      }
    }
  }

  lemma {:induction false} ConsKeeps(s: string)
    requires |s| >= 2 && !(s[0] == '-' && s[1] == '-') && NoDoubleDash(s[1..]) && Collapse(s[1..]) == s[1..]
    ensures NoDoubleDash(s) && Collapse(s) == s
  {
    forall i | 0 <= i < |s| - 1 ensures !(s[i] == '-' && s[i + 1] == '-') {
      if i > 0 {
        assert s[i] == s[1..][i - 1] && s[i + 1] == s[1..][i];
      }
    }
  }

  /** A vendor name spelled as long as its key. */
  predicate IsPlainName(v: string) {
    var k := ReleaseKey(v);
    k != "" && |v| == |k| && k[|k| - 1] != '-'
  }

  lemma {:induction false} PlainNameKey(v: string)
    requires IsPlainName(v)
    ensures CleanEnds(IsSpace, v) && ReleaseKey(v) == DashAll(Lower(v)) && NoDoubleDash(DashAll(Lower(v)))
  {
    var p := DashAll(Lower(Trim(v)));
    CollapseShortens(p);
    TrimShorter(v);
  }

  lemma {:induction false} TrimShorter(v: string)
    ensures |Trim(v)| <= |v| && (|Trim(v)| == |v| ==> Trim(v) == v) && CleanEnds(IsSpace, Trim(v))
  {
    TrimTrim(v);
    var lo, hi := StripFacts(IsSpace, v);
    assert hi - lo == |v| ==> v[lo..hi] == v;
  }

  /** The vendor's name and a dash are cut off an attribute name. */
  lemma {:induction false} PrefixedName(table: seq<VendorAlias>, vendor: string, name: string)
    requires IsPlainName(NormalizeVendor(table, vendor)) && CleanEnds(IsSpace, name)
    ensures TrimAttributePrefix(table, NormalizeVendor(table, vendor) + "-" + name, vendor) == Some(name)
  {
    var v := NormalizeVendor(table, vendor);
    var a := v + "-" + name;
    PlainNameKey(v);
    PrefixedKey(v, name);
    assert |v| + 1 <= |a| && a[|v| + 1..] == name;
  }

  lemma {:induction false} PrefixedKey(v: string, name: string)
    requires IsPlainName(v) && CleanEnds(IsSpace, name)
    ensures Trim(v + "-" + name) == v + "-" + name && ReleaseKey(v) + "-" <= ReleaseKey(v + "-" + name)
  {
    var a := v + "-" + name;
    var p, q := DashAll(Lower(v)), DashAll(Lower(name));
    PlainNameKey(v);
    assert CleanEnds(IsSpace, a);
    StripFixed(IsSpace, a);
    assert DashAll(Lower(a)) == p + "-" + q;
    CollapseAfter(p, q);
  }

  /** Without that, a first part before a dot that has the vendor's key is cut off, and any other name stays
      as it is, trimmed. */
  lemma {:induction false} OtherNames(table: seq<VendorAlias>, vendor: string, attribute: string)
    requires var k := ReleaseKey(NormalizeVendor(table, vendor));
             !(k != "" && k + "-" <= ReleaseKey(attribute))
    ensures forall prefix: string, name: string ::
              Trim(attribute) == prefix + "." + name && '.' !in prefix ==>
              TrimAttributePrefix(table, attribute, vendor)
                == Some(if ReleaseKey(prefix) == ReleaseKey(NormalizeVendor(table, vendor)) then name
                        else Trim(attribute))
    ensures '.' !in Trim(attribute) ==> TrimAttributePrefix(table, attribute, vendor) == Some(Trim(attribute))
  {
    TrimTrim(attribute);
    forall prefix: string, name: string | Trim(attribute) == prefix + "." + name && '.' !in prefix
      ensures CutDot(Trim(attribute)) == Some((prefix, name))
    {
      CutDotExactly(Trim(attribute), prefix, name);
    }
    CutDotExactly(Trim(attribute), "", "");
  }

  // ----- attribute names

  /** A row speaks of the vendor and of one of the two spellings. */
  predicate SpeaksOf(row: AttributeAlias, vendor: string, spellings: set<string>) {
    && (vendor == "" || ReleaseKey(row.vendor) == vendor)
    && (ReleaseKey(row.alias) in spellings || ReleaseKey(row.canonical) in spellings)
  }

  ghost predicate FirstRow(rows: seq<AttributeAlias>, vendor: string, spellings: set<string>, i: nat) {
    && i < |rows| && SpeaksOf(rows[i], vendor, spellings)
    && forall j :: 0 <= j < i ==> !SpeaksOf(rows[j], vendor, spellings)
  }

  lemma {:induction false} FirstRowDecides(rows: seq<AttributeAlias>, vendor: string, spellings: set<string>, i: nat)
    requires FirstRow(rows, vendor, spellings, i)
    ensures FirstAlias(rows, vendor, spellings) == Some(rows[i].canonical)
    decreases i
  {
    if i > 0 {
      assert !SpeaksOf(rows[0], vendor, spellings);
      forall j | 0 <= j < i - 1 ensures !SpeaksOf(rows[1..][j], vendor, spellings) {
        assert rows[1..][j] == rows[j + 1];
      }
      FirstRowDecides(rows[1..], vendor, spellings, i - 1);
    }
  }

  lemma {:induction false} NoRowDecides(rows: seq<AttributeAlias>, vendor: string, spellings: set<string>)
    requires forall row <- rows :: !SpeaksOf(row, vendor, spellings)
    ensures FirstAlias(rows, vendor, spellings).None?
  {
    if rows != [] {
      assert !SpeaksOf(rows[0], vendor, spellings);
      NoRowDecides(rows[1..], vendor, spellings);
    }
  }

  /** An attribute name becomes the canonical one of the first row that speaks of its vendor and of its key
      with or without the vendor's prefix, and stays itself, trimmed, without such a row. */
  lemma {:induction false} AttributeSpelling(tables: Tables, vendor: string, attribute: string, short: string)
    requires !Blank(attribute) && TrimAttributePrefix(tables.vendors, Trim(attribute), vendor) == Some(short)
    ensures var key := ReleaseKey(NormalizeVendor(tables.vendors, vendor));
            var spellings := {ReleaseKey(Trim(attribute)), ReleaseKey(short)};
            && (forall i: nat :: FirstRow(tables.attributes, key, spellings, i) ==>
                  NormalizeAttribute(tables, vendor, attribute) == Some(tables.attributes[i].canonical))
            && ((forall row <- tables.attributes :: !SpeaksOf(row, key, spellings)) ==>
                  NormalizeAttribute(tables, vendor, attribute) == Some(Trim(attribute)))
  {
    var key := ReleaseKey(NormalizeVendor(tables.vendors, vendor));
    var spellings := {ReleaseKey(Trim(attribute)), ReleaseKey(short)};
    forall i: nat | FirstRow(tables.attributes, key, spellings, i)
      ensures FirstAlias(tables.attributes, key, spellings) == Some(tables.attributes[i].canonical)
    {
      FirstRowDecides(tables.attributes, key, spellings, i);
    }
    if forall row <- tables.attributes :: !SpeaksOf(row, key, spellings) {
      NoRowDecides(tables.attributes, key, spellings);
    }
  }
}
