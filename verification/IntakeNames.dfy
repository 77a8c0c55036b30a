/** External intake with the real name normalisers: which requests the report builder can handle at all
    (configs/external_vendor_intake.go, configs/dictionary_release_profiles.go). */
module IntakeNames {
  import opened Text
  import opened Sequences
  import opened Wrappers
  import opened Dictionary
  import opened ReleaseKeys
  import opened ProfileNames
  import opened Intake
  import IntakeLaws
  import opened SemanticSets
  import DictionaryParser
  import C = Coverage
  import L = LongTail

  /** `BuildExternalVendorIntakeReport` with the modelled normalisers: `None` is the run that stops in an
      out-of-bounds slice. */
  method BuildOrFail(tables: Tables, env: Environment, request: Request) returns (result: Option<Report>)
    requires env.names == NamesFrom(tables)
    ensures result.Some? <==> NamesDefined(tables, IntakeLaws.CanonicalName(env, request),
                                           IntakeLaws.Selected(env, request).attributes)
    ensures result.Some? ==> IsReport(env, request, result.value)
  {
    var r := Normalize(request);
    var catalog := DictionaryParser.ParseVendorDictionaryCatalog(env.read, r.sourceURL, r.dictionaryText);
    var vendor := SelectVendor(env, catalog, r);
    var canonical := env.names.vendor(L.FirstNonEmpty(vendor.name, r.vendorName));
    var names := MapOrStop(Normaliser(tables, canonical), vendor.attributes);
    NormaliserDefined(tables, canonical, vendor.attributes);
    if names.None? {
      return None;
    }
    var report := BuildReport(env, request);
    result := Some(report);
  }

  // ----- a request that stops the builder

  /** A dictionary text of two lines that declares one attribute of one vendor. */
  function TwoLines(vendor: string, attribute: string): string {
    BeginLine(vendor) + "\n" + AttributeLine(attribute)
  }

  function BeginLine(vendor: string): string {
    "BEGIN-VENDOR" + (" " + vendor)
  }

  function AttributeLine(attribute: string): string {
    "ATTRIBUTE" + (" " + (attribute + Tail("1", "string")))
  }

  lemma {:induction false} BeginFields(vendor: string)
    requires Plain(vendor)
    ensures Fields(StripComment(BeginLine(vendor))) == ["BEGIN-VENDOR", vendor]
  {
    NoComment(BeginLine(vendor));
    FieldsWord("BEGIN-VENDOR", " " + vendor);
    FieldsSpace(vendor);
    assert vendor == vendor + "";
    FieldsWord(vendor, "");
  }

  lemma {:induction false} AttributeFields(attribute: string)
    requires Plain(attribute)
    ensures Fields(StripComment(AttributeLine(attribute))) == ["ATTRIBUTE", attribute, "1", "string"]
  {
    NoComment(AttributeLine(attribute));
    FourFields("ATTRIBUTE", attribute, "1", "string");
  }

  lemma {:induction false} ParseBegin(read: NumberReader, vendor: string)
    requires Plain(vendor)
    ensures ParseLine(read, EMPTY_PARSE, 1, BeginLine(vendor)) == Parse([Vendor(vendor, 0, [], [])], [], [], vendor)
  {
    BeginFields(vendor);
    StripFixed(IsSpace, vendor);
    assert |Lower("VENDOR")| == 6 && |Lower("BEGIN-VENDOR")| == 12;
    assert NormalizeOptions([]) == [];
  }

  lemma {:induction false} Declared(read: NumberReader, vendor: string, attribute: string, fields: seq<string>)
    requires Plain(vendor) && read("1") == Some(1) && fields == ["ATTRIBUTE", attribute, "1", "string"]
    ensures ParseAttributeLine(read, Parse([Vendor(vendor, 0, [], [])], [], [], vendor), 2, fields).vendors
         == [Vendor(vendor, 0, [], [Attribute(attribute, 1, "", "string", [], [])])]
  {
    StripFixed(IsSpace, vendor);
    StripFixed(IsSpace, "1");
    assert fields[4..] == [] && NormalizeOptions([]) == [];
    assert Keys(Lower, []) == {} && MergeOptions([], []) == [];
    assert Lower("string") == "string";
    var known := [Vendor(vendor, 0, [], [])];
    assert VendorIndex(known, Lower(vendor)) == 0;
    assert Upsert(known, vendor, 0, []) == known;
    assert ParseAttributeNumber(read, "1") == Some((1, ""));
    assert ResolveVendor(attribute, vendor, [], known) == (vendor, []);
    var added := Attribute(attribute, 1, "", "string", [], []);
    assert known[0].attributes + [added] == [added];
    assert AddAttribute(known, 0, added) == [Vendor(vendor, 0, [], [added])];
  }

  lemma {:induction false} ParseDeclaration(read: NumberReader, vendor: string, attribute: string)
    requires Plain(vendor) && Plain(attribute) && read("1") == Some(1)
    ensures ParseLine(read, Parse([Vendor(vendor, 0, [], [])], [], [], vendor), 2, AttributeLine(attribute)).vendors
         == [Vendor(vendor, 0, [], [Attribute(attribute, 1, "", "string", [], [])])]
  {
    AttributeFields(attribute);
    var fields := Fields(StripComment(AttributeLine(attribute)));
    Declared(read, vendor, attribute, fields);
    AttributeDispatch(read, Parse([Vendor(vendor, 0, [], [])], [], [], vendor), 2, AttributeLine(attribute));
  }

  lemma {:induction false} AttributeDispatch(read: NumberReader, st: Parse, n: nat, line: string)
    requires var fields := Fields(StripComment(line)); fields != [] && fields[0] == "ATTRIBUTE"
    ensures ParseLine(read, st, n, line) == ParseAttributeLine(read, st, n, Fields(StripComment(line)))
  {
    assert |Lower("VENDOR")| == 6 && |Lower("BEGIN-VENDOR")| == 12 && |Lower("END-VENDOR")| == 10
           && |Lower("ATTRIBUTE")| == 9;
    assert EqualFold("ATTRIBUTE", "ATTRIBUTE") && !EqualFold("ATTRIBUTE", "VENDOR")
           && !EqualFold("ATTRIBUTE", "BEGIN-VENDOR") && !EqualFold("ATTRIBUTE", "END-VENDOR");
  }

  lemma {:induction false} ParseTwoLines(read: NumberReader, source: string, vendor: string, attribute: string)
    requires Plain(vendor) && Plain(attribute) && read("1") == Some(1)
    ensures ParseCatalog(read, source, TwoLines(vendor, attribute)).vendors
            == [Vendor(vendor, 0, [], [Attribute(attribute, 1, "", "string", [], [])])]
  {
    var a, b := BeginLine(vendor), AttributeLine(attribute);
    SplitConcat(a, b, '\n');
    assert '\n' !in vendor && '\n' !in attribute by {
      assert IsSpace('\n');
    }
    SplitPlain(a, '\n');
    SplitPlain(b, '\n');
    assert [a] + [b] == [a, b];
    ParseBegin(read, vendor);
    ParseDeclaration(read, vendor, attribute);
    assert [a, b][1..] == [b] && [b][1..] == [];
    var st := ParseLine(read, EMPTY_PARSE, 1, a);
    assert ParseLines(read, EMPTY_PARSE, 0, [a, b]) == ParseLines(read, st, 1, [b]);
    assert ParseLines(read, st, 1, [b]) == ParseLines(read, ParseLine(read, st, 2, b), 2, []);
  }

  lemma {:induction false} TwoLinesTrimmed(vendor: string, attribute: string)
    ensures Trim(TwoLines(vendor, attribute)) == TwoLines(vendor, attribute)
  {
    var text := TwoLines(vendor, attribute);
    assert text[0] == 'B' && text[|text| - 1] == 'g';
    StripFixed(IsSpace, text);
  }

  lemma {:induction false} TwoLineSelected(tables: Tables, env: Environment, request: Request, vendor: string,
                                           attribute: string)
    requires env.names == NamesFrom(tables) && Unaliased(tables.vendors, vendor)
    requires env.read("1") == Some(1) && Plain(vendor) && Plain(attribute)
    requires request.vendorName == vendor && request.dictionaryText == TwoLines(vendor, attribute)
    ensures IntakeLaws.Selected(env, request) == Vendor(vendor, 0, [], [Attribute(attribute, 1, "", "string", [], [])])
  {
    TwoLinesTrimmed(vendor, attribute);
    ParseTwoLines(env.read, Normalize(request).sourceURL, vendor, attribute);
    PlainName(tables, env, vendor);
    var declared := [Vendor(vendor, 0, [], [Attribute(attribute, 1, "", "string", [], [])])];
    assert C.FirstVendor(env.names, declared, Lower(vendor)) == Some(declared[0]);
  }

  lemma {:induction false} PlainName(tables: Tables, env: Environment, vendor: string)
    requires env.names == NamesFrom(tables) && Unaliased(tables.vendors, vendor) && Plain(vendor)
    ensures env.names.vendor(vendor) == vendor == Trim(vendor)
  {
    assert vendor[0] in vendor && vendor[|vendor| - 1] in vendor;
    UnaliasedName(tables.vendors, vendor);
  }

  /** The builder handles the two-line dictionary of a vendor without alias rows exactly when the prefix
      slice is in bounds for its attribute. */
  lemma {:induction false} TwoLineRequest(tables: Tables, env: Environment, request: Request, vendor: string,
                                          attribute: string)
    requires env.names == NamesFrom(tables) && Unaliased(tables.vendors, vendor)
    requires env.read("1") == Some(1) && Plain(vendor) && Plain(attribute)
    requires request.vendorName == vendor && request.dictionaryText == TwoLines(vendor, attribute)
    ensures IntakeLaws.CanonicalName(env, request) == vendor
    ensures NamesDefined(tables, vendor, IntakeLaws.Selected(env, request).attributes)
       <==> TrimAttributePrefix(tables.vendors, attribute, vendor).Some?
  {
    TwoLineSelected(tables, env, request, vendor, attribute);
    PlainName(tables, env, vendor);
    var declared := Attribute(attribute, 1, "", "string", [], []);
    if Sliceable(tables, vendor, declared) {
      assert forall i :: 0 <= i < |[declared]| ==> [declared][i] == declared;
    } else {
      OneUndefined(tables, vendor, declared);
    }
  }

  /** The concrete request: vendor `a__b` with attribute `a-b-` stops the builder. */
  lemma {:induction false} UnderscoreVendorFails(tables: Tables, env: Environment, request: Request)
    requires env.names == NamesFrom(tables) && Unaliased(tables.vendors, "a__b") && env.read("1") == Some(1)
    requires request.vendorName == "a__b" && request.dictionaryText == TwoLines("a__b", "a-b-")
    ensures !NamesDefined(tables, IntakeLaws.CanonicalName(env, request), IntakeLaws.Selected(env, request).attributes)
  {
    TwoLineRequest(tables, env, request, "a__b", "a-b-");
    UnderscoresOverrun(tables.vendors);
  }

  // ----- what the gates take as given

  /** With a validated alias table, the long-tail classifier and hashes that are texts, what the gates take
      as given holds. */
  lemma {:induction false} TablesAreProper(tables: Tables, env: Environment)
    requires Complete(tables.vendors) && env.names == NamesFrom(tables) && env.semantic == L.Semantic
    requires !Blank(env.registrySHA256) && forall rs :: !Blank(env.fingerprint(rs))
    ensures IntakeLaws.Proper(env)
  {
    forall v | !Blank(v) ensures !Blank(env.names.vendor(v)) {
      NormalizedIsText(tables.vendors, v);
    }
    ClassifierHasPrimary(env);
  }

  lemma {:induction false} ClassifierHasPrimary(env: Environment)
    requires env.semantic == L.Semantic
    ensures IntakeLaws.Classifies(env)
  {
    forall e ensures First(env.semantic(e)) != "" {
      L.SemanticHasPrimary(e);
    }
  }
}
