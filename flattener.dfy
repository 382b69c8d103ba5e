/** `flatten_structured_data` (UI.py): a fixed table maps the leaves of five
    nested groups of the extraction schema to flat form keys. A group absent
    from the input contributes no key; a leaf absent from a present group
    becomes the empty string. A present group that is not a dict makes
    `.get` raise, and the caller then drops the whole result. */
module Flattener {
  import opened Wrappers
  import opened Text
  import opened Values
  import opened Form

  /** A leaf of a group and the form key it fills. */
  datatype Leaf = Leaf(name: string, formKey: string)

  /** A top-level group of the schema and its leaves, in source order. */
  datatype Group = Group(name: string, leaves: seq<Leaf>)

  const CertificateInfo: Group := Group("certificateInfo", [
    Leaf("certificateNumber", "cert_number_value"),
    Leaf("templateForm", "template_form_value"),
    Leaf("effectiveDate", "effective_date_value"),
    Leaf("expirationDate", "expiration_date_value"),
    Leaf("insuredName", "insured_name_value"),
    Leaf("address", "address_value"),
    Leaf("description", "description_value")])

  const AutomobileLiability: Group := Group("automobileLiability", [
    Leaf("insuranceCompany", "auto_liability_insurance_company_value"),
    Leaf("currency", "auto_liability_currency_value"),
    Leaf("amount", "auto_liability_amount_value"),
    Leaf("deductibleCurrency", "auto_liability_ded_currency_value"),
    Leaf("deductibleAmount", "auto_liability_ded_amount_value"),
    Leaf("expiryDate", "auto_liability_expiry_date_value")])

  const CommercialGeneralLiability: Group := Group("commercialGeneralLiability", [
    Leaf("insuranceCompany", "cgl_company_value"),
    Leaf("currency", "cgl_currency_value"),
    Leaf("amount", "cgl_amount_value"),
    Leaf("deductibleCurrency", "cgl_ded_currency_value"),
    Leaf("deductibleAmount", "cgl_ded_amount_value"),
    Leaf("expiryDate", "cgl_expiry_value")])

  const NonOwnedTrailer: Group := Group("nonOwnedTrailer", [
    Leaf("insuranceCompany", "trailer_company_value"),
    Leaf("currency", "trailer_currency_value"),
    Leaf("amount", "trailer_amount_value"),
    Leaf("deductibleCurrency", "trailer_ded_currency_value"),
    Leaf("deductibleAmount", "trailer_ded_amount_value"),
    Leaf("expiryDate", "trailer_expiry_value")])

  const OtherFields: Group := Group("other", [
    Leaf("additionalInsured", "additional_insured_value"),
    Leaf("certificateHolder", "certificate_holder_value"),
    Leaf("cancellationNoticePeriod", "cancellation_period_value")])

  /** The five groups in the order the flattener visits them. */
  const Groups: seq<Group> := [CertificateInfo, AutomobileLiability, CommercialGeneralLiability, NonOwnedTrailer, OtherFields]

  function LeafKeys(leaves: seq<Leaf>): (keys: seq<string>)
    ensures |keys| == |leaves|
  {
    seq(|leaves|, i requires 0 <= i < |leaves| => leaves[i].formKey)
  }

  /** Every form key the groups can fill, group after group. */
  function GroupKeys(groups: seq<Group>): (keys: seq<string>) {
    if groups == [] then [] else GroupKeys(groups[..|groups| - 1]) + LeafKeys(groups[|groups| - 1].leaves)
  }

  /** The entries written for one present group whose dict is `fields`. */
  function LeafEntries(leaves: seq<Leaf>, fields: map<string, Value>): (m: map<string, Value>)
    ensures m.Keys == set l | l in leaves :: l.formKey
  {
    if leaves == [] then map[]
    else
      var n := |leaves| - 1;
      assert leaves == leaves[..n] + [leaves[n]];
      LeafEntries(leaves[..n], fields)[leaves[n].formKey := Get(fields, leaves[n].name, Str(""))]
  }

  /** Each leaf's form key holds what `.get(leaf, "")` returns. */
  lemma {:induction false} LeafEntriesValue(leaves: seq<Leaf>, fields: map<string, Value>, k: nat)
    requires Distinct(LeafKeys(leaves)) && k < |leaves|
    ensures LeafEntries(leaves, fields)[leaves[k].formKey] == Get(fields, leaves[k].name, Str(""))
  {
    var n := |leaves| - 1;
    if k < n {
      assert LeafKeys(leaves[..n]) == LeafKeys(leaves)[..n];
      assert LeafKeys(leaves)[k] != LeafKeys(leaves)[n];
      LeafEntriesValue(leaves[..n], fields, k);
    }
  }

  /** Python's `g.name in data` holds. */
  predicate Present(data: Value, g: Group) {
    Contains(data, g.name) == Some(true)
  }

  /** The flattener gets past group `g` without an exception: the `in` test
      is defined on `data`, and a present group is a dict. */
  predicate Readable(data: Value, g: Group) {
    && Contains(data, g.name).Some?
    && (Present(data, g) ==> Subscript(data, g.name).Some? && Subscript(data, g.name).value.Obj?)
  }

  /** The dict of a present, readable group. */
  function GroupFields(data: Value, g: Group): (fields: map<string, Value>)
    requires Present(data, g) && Readable(data, g)
  {
    Subscript(data, g.name).value.fields
  }

  /** Python's `flatten_structured_data` over `groups`, visited in order.
      `None` is the exception raised by an `in` test on a number, a boolean or
      `None`, or by subscripting or calling `.get` on a present group that is
      not a dict. */
  function FlattenGroups(data: Value, groups: seq<Group>): (r: Option<map<string, Value>>)
  {
    if groups == [] then Some(map[])
    else
      var g := groups[|groups| - 1];
      match FlattenGroups(data, groups[..|groups| - 1])
      case None => None
      case Some(acc) =>
        match Contains(data, g.name)
        case None => None
        case Some(present) =>
          if !present then Some(acc)
          else match Subscript(data, g.name)
            case Some(Obj(fields)) => Some(acc + LeafEntries(g.leaves, fields))
            case _ => None
  }

  /** The flattener of the application. It never writes a key the form
      lacks. */
  function Flatten(data: Value): (r: Option<map<string, Value>>)
    ensures r.Some? ==> r.value.Keys <= FormKeySet()
  {
    var flat := FlattenGroups(data, Groups);
    if flat.Some? then
      FlattenKeysIn(data, Groups);
      GroupKeysAreFormKeys();
      flat
    else
      flat
  }

  /** The certificate leaves fill the form's first section, the certificate
      number before the template form. */
  lemma CertificateInfoKeys()
    ensures LeafKeys(CertificateInfo.leaves) == [HeaderKeys[1], HeaderKeys[0]] + HeaderKeys[2..]
  {
  }

  /** The other four groups fill the form's other sections, in the form's order. */
  lemma AutomobileLiabilityKeys() ensures LeafKeys(AutomobileLiability.leaves) == AutomobileKeys {}
  lemma CommercialGeneralLiabilityKeys() ensures LeafKeys(CommercialGeneralLiability.leaves) == GeneralLiabilityKeys {}
  lemma NonOwnedTrailerKeys() ensures LeafKeys(NonOwnedTrailer.leaves) == TrailerKeys {}
  lemma OtherFieldsKeys() ensures LeafKeys(OtherFields.leaves) == OtherKeys {}

  /** The key list of the five groups, one group after another. */
  lemma GroupKeysOfGroups()
    ensures GroupKeys(Groups) ==
      LeafKeys(CertificateInfo.leaves) + LeafKeys(AutomobileLiability.leaves)
      + LeafKeys(CommercialGeneralLiability.leaves) + LeafKeys(NonOwnedTrailer.leaves)
      + LeafKeys(OtherFields.leaves)
  {
    var g := Groups;
    assert g[..2][..1] == g[..1] && g[..3][..2] == g[..2] && g[..4][..3] == g[..3] && g[..5][..4] == g[..4] && g[..5] == g;
    assert GroupKeys(g[..1]) == LeafKeys(g[0].leaves);
    assert GroupKeys(g[..2]) == GroupKeys(g[..1]) + LeafKeys(g[1].leaves);
    assert GroupKeys(g[..3]) == GroupKeys(g[..2]) + LeafKeys(g[2].leaves);
    assert GroupKeys(g[..4]) == GroupKeys(g[..3]) + LeafKeys(g[3].leaves);
  }

  /** The key list of the table is the form's key list with its first two
      keys exchanged. */
  lemma GroupKeysSections()
    ensures GroupKeys(Groups) ==
      ([HeaderKeys[1], HeaderKeys[0]] + HeaderKeys[2..]) + AutomobileKeys + GeneralLiabilityKeys + TrailerKeys + OtherKeys
  {
    GroupKeysOfGroups();
    CertificateInfoKeys();
    AutomobileLiabilityKeys();
    CommercialGeneralLiabilityKeys();
    NonOwnedTrailerKeys();
    OtherFieldsKeys();
  }

  /** Exchanging the first two keys keeps the keys and their distinctness. */
  lemma SwapHead(h: seq<string>)
    requires |h| >= 2
    ensures forall x :: x in [h[1], h[0]] + h[2..] <==> x in h
    ensures Distinct(h) ==> Distinct([h[1], h[0]] + h[2..])
  {
    var s := [h[1], h[0]] + h[2..];
    assert forall i :: 2 <= i < |h| ==> s[i] == h[i];
    assert h == [h[0], h[1]] + h[2..];
  }

  /** No two leaves of the table fill the same form key. */
  lemma GroupKeysDistinct()
    ensures Distinct(GroupKeys(Groups))
  {
    var h, a, g, t, o := HeaderKeys, AutomobileKeys, GeneralLiabilityKeys, TrailerKeys, OtherKeys;
    var c := [h[1], h[0]] + h[2..];
    GroupKeysSections();
    SectionsDistinct();
    SectionsDisjoint();
    SwapHead(h);
    DisjointSubset(c, h, a);
    DisjointSubset(c, h, g);
    DisjointSubset(c, h, t);
    DisjointSubset(c, h, o);
    DistinctConcat(c, a);
    DisjointConcat(c, a, g);
    DistinctConcat(c + a, g);
    DisjointConcat(c, a, t);
    DisjointConcat(c + a, g, t);
    DistinctConcat(c + a + g, t);
    DisjointConcat(c, a, o);
    DisjointConcat(c + a, g, o);
    DisjointConcat(c + a + g, t, o);
    DistinctConcat(c + a + g + t, o);
  }

  /** The table fills exactly the form's keys. */
  lemma GroupKeysAreFormKeys()
    ensures forall k :: k in GroupKeys(Groups) <==> k in FormKeySet()
  {
    GroupKeysSections();
    SwapHead(HeaderKeys);
  }

  lemma LeafKeysHas(leaves: seq<Leaf>, l: Leaf)
    requires l in leaves
    ensures l.formKey in LeafKeys(leaves)
  {
    var j :| 0 <= j < |leaves| && leaves[j] == l;
    assert LeafKeys(leaves)[j] == l.formKey;
  }

  lemma {:induction false} GroupKeysHas(groups: seq<Group>, i: nat, k: nat)
    requires i < |groups| && k < |groups[i].leaves|
    ensures groups[i].leaves[k].formKey in GroupKeys(groups)
  {
    var n := |groups| - 1;
    if i < n {
      GroupKeysHas(groups[..n], i, k);
    } else {
      assert LeafKeys(groups[n].leaves)[k] == groups[i].leaves[k].formKey;
    }
  }

  /** The flattener gets through `groups` exactly when it gets past each one. */
  lemma {:induction false} FlattenDefined(data: Value, groups: seq<Group>)
    ensures FlattenGroups(data, groups).Some? <==> forall g :: g in groups ==> Readable(data, g)
  {
    if groups != [] {
      var n := |groups| - 1;
      FlattenDefined(data, groups[..n]);
      assert groups == groups[..n] + [groups[n]];
      assert (forall g :: g in groups ==> Readable(data, g)) <==>
        (forall g :: g in groups[..n] ==> Readable(data, g)) && Readable(data, groups[n]);
    }
  }

  /** The keys of the flat dict are the form keys of the leaves of the
      groups present in the input, and no others. */
  lemma {:induction false} FlattenKeys(data: Value, groups: seq<Group>)
    requires FlattenGroups(data, groups).Some?
    ensures FlattenGroups(data, groups).value.Keys ==
      set g, l | g in groups && Present(data, g) && l in g.leaves :: l.formKey
  {
    if groups != [] {
      var n := |groups| - 1;
      FlattenKeys(data, groups[..n]);
      assert groups == groups[..n] + [groups[n]];
    }
  }

  /** Each form key of a leaf of a present group holds what `.get(leaf, "")`
      returns on that group's dict. */
  lemma {:induction false} FlattenValue(data: Value, groups: seq<Group>, i: nat, k: nat)
    requires Distinct(GroupKeys(groups))
    requires FlattenGroups(data, groups).Some?
    requires i < |groups| && k < |groups[i].leaves| && Present(data, groups[i])
    ensures Readable(data, groups[i])
    ensures groups[i].leaves[k].formKey in FlattenGroups(data, groups).value
    ensures FlattenGroups(data, groups).value[groups[i].leaves[k].formKey]
      == Get(GroupFields(data, groups[i]), groups[i].leaves[k].name, Str(""))
  {
    var n := |groups| - 1;
    var init, last := groups[..n], groups[n];
    var key := groups[i].leaves[k].formKey;
    DistinctSplit(GroupKeys(init), LeafKeys(last.leaves));
    FlattenDefined(data, groups);
    FlattenDefined(data, init);
    assert groups[i] in groups;
    if i == n {
      var fields := GroupFields(data, last);
      assert last.leaves[k] in last.leaves;
      LeafEntriesValue(last.leaves, fields, k);
    } else {
      assert init[i] == groups[i];
      FlattenValue(data, init, i, k);
      GroupKeysHas(init, i, k);
      if l :| l in last.leaves && l.formKey == key {
        LeafKeysHas(last.leaves, l);
        assert false;
      }
    }
  }

  /** Every key of the flat dict is a key of the table. */
  lemma {:induction false} FlattenKeysIn(data: Value, groups: seq<Group>)
    requires FlattenGroups(data, groups).Some?
    ensures forall key :: key in FlattenGroups(data, groups).value ==> key in GroupKeys(groups)
  {
    if groups != [] {
      var n := |groups| - 1;
      var init, last := groups[..n], groups[n];
      FlattenKeysIn(data, init);
      forall l | l in last.leaves
        ensures l.formKey in GroupKeys(groups)
      {
        LeafKeysHas(last.leaves, l);
      }
    }
  }

  /** A leaf of a group absent from the input fills no key. */
  lemma {:induction false} FlattenAbsent(data: Value, groups: seq<Group>, i: nat, k: nat)
    requires Distinct(GroupKeys(groups))
    requires FlattenGroups(data, groups).Some?
    requires i < |groups| && k < |groups[i].leaves| && !Present(data, groups[i])
    ensures groups[i].leaves[k].formKey !in FlattenGroups(data, groups).value
  {
    var n := |groups| - 1;
    var init, last := groups[..n], groups[n];
    var key := groups[i].leaves[k].formKey;
    DistinctSplit(GroupKeys(init), LeafKeys(last.leaves));
    if i == n {
      FlattenKeysIn(data, init);
      assert LeafKeys(last.leaves)[k] == key;
    } else {
      assert init[i] == groups[i];
      FlattenAbsent(data, init, i, k);
      GroupKeysHas(init, i, k);
      if l :| l in last.leaves && l.formKey == key {
        LeafKeysHas(last.leaves, l);
        assert false;
      }
    }
  }

  /** A flattened leaf of the application's table: its form key holds the
      leaf's value in the group's dict, or `""` when the leaf is absent. */
  lemma FlattenLeaf(data: Value, i: nat, k: nat)
    requires Flatten(data).Some?
    requires i < |Groups| && k < |Groups[i].leaves| && Present(data, Groups[i])
    ensures Readable(data, Groups[i])
    ensures Groups[i].leaves[k].formKey in Flatten(data).value
    ensures Flatten(data).value[Groups[i].leaves[k].formKey]
      == Get(GroupFields(data, Groups[i]), Groups[i].leaves[k].name, Str(""))
  {
    GroupKeysDistinct();
    FlattenValue(data, Groups, i, k);
  }

  /** On a dict, the flattener fails exactly when a present group is not a dict. */
  lemma FlattenDict(fields: map<string, Value>)
    ensures Flatten(Obj(fields)).Some? <==>
      forall g :: g in Groups && g.name in fields ==> fields[g.name].Obj?
  {
    FlattenDefined(Obj(fields), Groups);
  }

  /** `None`, a boolean or a number makes the first `in` test raise. */
  lemma FlattenScalar(data: Value)
    requires data.Null? || data.Bool? || data.Int?
    ensures Flatten(data).None?
  {
    FlattenDefined(data, Groups);
    assert CertificateInfo in Groups;
  }

  /** On text, `in` is a substring test: the flattener yields an empty dict
      when no group name occurs in the text, and raises when one does, since
      a string cannot be subscripted with a string. */
  lemma FlattenText(s: string)
    ensures Flatten(Str(s)) ==
      if exists g :: g in Groups && IsSubstring(g.name, s) then None else Some(map[])
  {
    FlattenDefined(Str(s), Groups);
    if Flatten(Str(s)).Some? {
      FlattenKeys(Str(s), Groups);
    }
  }

  /** A dict holding none of the five groups flattens to an empty dict. */
  lemma FlattenNoGroups(fields: map<string, Value>)
    requires forall g :: g in Groups ==> g.name !in fields
    ensures Flatten(Obj(fields)) == Some(map[])
  {
    FlattenDefined(Obj(fields), Groups);
    FlattenKeys(Obj(fields), Groups);
  }

  /** No leaf of a group absent from the input is flattened. */
  lemma FlattenLeafAbsent(data: Value, i: nat, k: nat)
    requires Flatten(data).Some?
    requires i < |Groups| && k < |Groups[i].leaves| && !Present(data, Groups[i])
    ensures Groups[i].leaves[k].formKey !in Flatten(data).value
  {
    GroupKeysDistinct();
    FlattenAbsent(data, Groups, i, k);
  }

  /** Filling the form from a document: each leaf of a group present in the
      reply writes what `.get(leaf, "")` returns, in its stored form; each
      leaf of an absent group keeps the form's previous value. */
  lemma FillFromDocument(form: map<string, Value>, data: Value, i: nat, k: nat)
    requires form.Keys == FormKeySet()
    requires Flatten(data).Some?
    requires i < |Groups| && k < |Groups[i].leaves|
    ensures Groups[i].leaves[k].formKey in UpdatedForm(form, Flatten(data).value)
    ensures Present(data, Groups[i]) ==> Readable(data, Groups[i])
    ensures UpdatedForm(form, Flatten(data).value)[Groups[i].leaves[k].formKey] ==
      if Present(data, Groups[i])
      then FormValue(Get(GroupFields(data, Groups[i]), Groups[i].leaves[k].name, Str("")))
      else form[Groups[i].leaves[k].formKey]
  {
    GroupKeysAreFormKeys();
    GroupKeysHas(Groups, i, k);
    if Present(data, Groups[i]) {
      FlattenLeaf(data, i, k);
    } else {
      FlattenLeafAbsent(data, i, k);
    }
  }
}
