/** In which order the reports and tables come out, said field by field. */
module Orderings {
  import opened Text
  import opened Sequences
  import opened Dictionary
  import opened RegistryModel
  import opened Packs
  import R = RuntimeMappings
  import I = Intake
  import IntakeLaws
  import E = Evidence
  import EvidenceLaws
  import C = Certification

  /** Elements stand in the order of a text key. */
  ghost predicate AscendBy<T>(key: T -> string, xs: seq<T>) {
    forall i, j :: 0 <= i < j < |xs| ==> !Less(key(xs[j]), key(xs[i]))
  }

  // ----- the decoder table

  /** Whether the pack comes earlier among the known packs; known packs come before others. */
  predicate PackBefore(order: map<string, nat>, a: string, b: string) {
    a in order && (b !in order || order[a] < order[b])
  }

  /** Known packs first in their order, then the other packs; within a pack position by type, and then by
      attribute. Packs that are not known count as one. */
  ghost predicate InTableOrder(order: map<string, nat>, a: R.RuntimeMapping, b: R.RuntimeMapping) {
    && !PackBefore(order, b.packKey, a.packKey)
    && (!PackBefore(order, a.packKey, b.packKey) ==> a.octet <= b.octet)
    && (!PackBefore(order, a.packKey, b.packKey) && a.octet == b.octet ==> !Less(b.attribute, a.attribute))
  }

  lemma {:induction false} TableOrder(order: map<string, nat>, entries: seq<Entry>)
    ensures var table := R.Table(order, entries);
            forall i, j :: 0 <= i < j < |table| ==> InTableOrder(order, table[i], table[j])
  {
    R.TableUniqueAndSorted(order, entries);
    var table := R.Table(order, entries);
    forall i, j | 0 <= i < j < |table| ensures InTableOrder(order, table[i], table[j]) {
      assert R.NotAfter(order)(table[i], table[j]);
    }
  }

  // ----- intake records

  ghost predicate InRecordOrder(a: I.Record, b: I.Record) {
    && a.number <= b.number
    && (a.number == b.number ==> !Less(b.oid, a.oid))
    && (a.number == b.number && a.oid == b.oid ==> !Less(b.attribute, a.attribute))
  }

  /** The intake's records come by number, then by OID, then by attribute, one per attribute. */
  lemma {:induction false} IntakeOrder(env: I.Environment, attributes: seq<Attribute>, canonical: string, pen: nat,
                                       packKey: string)
    ensures var rs := I.Records(env, attributes, canonical, pen, packKey);
            && multiset(rs) == multiset(I.RecordsOf(env, attributes, canonical, pen, packKey)) && |rs| == |attributes|
            && forall i, j :: 0 <= i < j < |rs| ==> InRecordOrder(rs[i], rs[j])
  {
    IntakeLaws.RecordOrder();
    StableSortFacts(I.RecordNotAfter, I.RecordsOf(env, attributes, canonical, pen, packKey));
    var rs := I.Records(env, attributes, canonical, pen, packKey);
    forall i, j | 0 <= i < j < |rs| ensures InRecordOrder(rs[i], rs[j]) {
      assert I.RecordNotAfter(rs[i], rs[j]);
      RecordOrderMeans(rs[i], rs[j]);
    }
  }

  lemma {:induction false} RecordOrderMeans(a: I.Record, b: I.Record)
    requires I.RecordNotAfter(a, b)
    ensures InRecordOrder(a, b)
  {
    LessTotal(a.oid, b.oid);
    NotLessSelf(a.oid);
  }

  // ----- evidence and certification records

  function EvidenceID(r: E.Record): string {
    r.id
  }

  /** Evidence records come by ID, one per mapping. */
  lemma {:induction false} EvidenceOrder(ctx: E.Context, packs: seq<Pack>, report: E.Report)
    requires E.IsReport(ctx, packs, report)
    ensures AscendBy(EvidenceID, report.records) && multiset(report.records) == multiset(E.Built(ctx, packs))
  {
    EvidenceLaws.RecordOrder();
    StableSortFacts(E.RecordNotAfter, E.Built(ctx, packs));
    assert forall a, b :: E.RecordNotAfter(a, b) ==> !Less(EvidenceID(b), EvidenceID(a));
  }

  function CertificationID(r: C.Record): string {
    r.id
  }

  lemma {:induction false} CertificationRecordOrder()
    ensures TotalPreorder(C.RecordNotAfter)
  {
    forall x, y ensures C.RecordNotAfter(x, y) || C.RecordNotAfter(y, x) {
      if Less(x.id, y.id) {
        LessAsymmetric(x.id, y.id);
      }
    }
    forall x, y, z | C.RecordNotAfter(x, y) && C.RecordNotAfter(y, z) ensures C.RecordNotAfter(x, z) {
      NotLessTransitive(x.id, y.id, z.id);
    }
  }

  /** Certification records come by ID, one per baseline row. */
  lemma {:induction false} CertificationOrder(ctx: C.Context, report: C.Report)
    requires C.IsReport(ctx, report)
    ensures AscendBy(CertificationID, report.records) && |report.records| == |C.Baseline(ctx.rows)|
  {
    var built := Mapped(C.RecordOf(ctx), C.Baseline(ctx.rows));
    CertificationRecordOrder();
    StableSortFacts(C.RecordNotAfter, built);
    assert forall a, b :: C.RecordNotAfter(a, b) ==> !Less(CertificationID(b), CertificationID(a));
  }

  // ----- the baseline

  ghost predicate InBaselineOrder(a: Entry, b: Entry) {
    && !Less(b.vendor, a.vendor)
    && (a.vendor == b.vendor ==> a.number <= b.number)
    && (a.vendor == b.vendor && a.number == b.number ==> !Less(b.attribute, a.attribute))
  }

  lemma {:induction false} BaselineMeans(a: Entry, b: Entry)
    ensures C.BaselineNotAfter(a, b) <==> InBaselineOrder(a, b)
  {
    LessTotal(a.vendor, b.vendor);
    NotLessSelf(a.vendor);
    if Less(a.vendor, b.vendor) {
      LessAsymmetric(a.vendor, b.vendor);
    }
  }

  lemma {:induction false} BaselineThen(x: Entry, y: Entry, z: Entry)
    requires InBaselineOrder(x, y) && InBaselineOrder(y, z)
    ensures InBaselineOrder(x, z)
  {
    NotLessTransitive(x.vendor, y.vendor, z.vendor);
    NotLessTransitive(x.attribute, y.attribute, z.attribute);
    if x.vendor == z.vendor {
      LessTotal(x.vendor, y.vendor);
    }
  }

  lemma {:induction false} BaselineTotal(x: Entry, y: Entry)
    ensures InBaselineOrder(x, y) || InBaselineOrder(y, x)
  {
    LessTotal(x.vendor, y.vendor);
    LessTotal(x.attribute, y.attribute);
    NotLessSelf(x.vendor);
    NotLessSelf(x.attribute);
    if Less(x.vendor, y.vendor) {
      LessAsymmetric(x.vendor, y.vendor);
    } else if Less(y.vendor, x.vendor) {
      LessAsymmetric(y.vendor, x.vendor);
    }
    if Less(x.attribute, y.attribute) {
      LessAsymmetric(x.attribute, y.attribute);
    }
  }

  /** The baseline comes by vendor, then by number, then by attribute. */
  lemma {:induction false} BaselineOrder(rows: seq<Entry>)
    ensures var baseline := C.Baseline(rows);
            forall i, j :: 0 <= i < j < |baseline| ==> InBaselineOrder(baseline[i], baseline[j])
  {
    forall x, y ensures C.BaselineNotAfter(x, y) <==> InBaselineOrder(x, y) {
      BaselineMeans(x, y);
    }
    forall x, y ensures C.BaselineNotAfter(x, y) || C.BaselineNotAfter(y, x) {
      BaselineTotal(x, y);
    }
    forall x, y, z | C.BaselineNotAfter(x, y) && C.BaselineNotAfter(y, z) ensures C.BaselineNotAfter(x, z) {
      BaselineThen(x, y, z);
    }
    StableSortFacts(C.BaselineNotAfter, Filter(C.IsPartial, rows));
  }
}
