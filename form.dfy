/** The editable form of the main page (UI.py): a dict of 28 fixed keys, all
    starting as the empty string, and `update_form_values`, which copies a
    flat dict into it. */
module Form {
  import opened Text
  import opened Values

  /** The form's keys, section by section, in the order the initial dict
      lists them. */
  const HeaderKeys: seq<string> := [
    "template_form_value", "cert_number_value", "effective_date_value", "expiration_date_value",
    "insured_name_value", "address_value", "description_value"]

  const AutomobileKeys: seq<string> := [
    "auto_liability_insurance_company_value", "auto_liability_currency_value",
    "auto_liability_amount_value", "auto_liability_ded_currency_value",
    "auto_liability_ded_amount_value", "auto_liability_expiry_date_value"]

  const GeneralLiabilityKeys: seq<string> := [
    "cgl_company_value", "cgl_currency_value", "cgl_amount_value",
    "cgl_ded_currency_value", "cgl_ded_amount_value", "cgl_expiry_value"]

  const TrailerKeys: seq<string> := [
    "trailer_company_value", "trailer_currency_value", "trailer_amount_value",
    "trailer_ded_currency_value", "trailer_ded_amount_value", "trailer_expiry_value"]

  const OtherKeys: seq<string> := [
    "additional_insured_value", "certificate_holder_value", "cancellation_period_value"]

  const FormKeys: seq<string> := HeaderKeys + AutomobileKeys + GeneralLiabilityKeys + TrailerKeys + OtherKeys

  function FormKeySet(): (keys: set<string>) {
    set k | k in FormKeys
  }

  /** The form before any document is processed. */
  function BlankForm(): (form: map<string, Value>)
    ensures form.Keys == FormKeySet()
    ensures forall k :: k in form ==> form[k] == Str("")
  {
    map k | k in FormKeySet() :: Str("")
  }

  /** The form after `update_form_values(flat)`: a key of the form that
      `flat` holds takes the stored form of `flat`'s value; every other key
      keeps its value, and keys of `flat` outside the form are dropped. */
  function UpdatedForm(form: map<string, Value>, flat: map<string, Value>): (r: map<string, Value>)
    ensures r.Keys == form.Keys
  {
    map k | k in form :: if k in flat then FormValue(flat[k]) else form[k]
  }

  lemma SectionsDistinct()
    ensures Distinct(HeaderKeys) && Distinct(AutomobileKeys) && Distinct(GeneralLiabilityKeys)
    ensures Distinct(TrailerKeys) && Distinct(OtherKeys)
  {
  }

  lemma HeaderDisjointAutomobile() ensures Disjoint(HeaderKeys, AutomobileKeys) {}
  lemma HeaderDisjointGeneralLiability() ensures Disjoint(HeaderKeys, GeneralLiabilityKeys) {}
  lemma HeaderDisjointTrailer() ensures Disjoint(HeaderKeys, TrailerKeys) {}
  lemma HeaderDisjointOther() ensures Disjoint(HeaderKeys, OtherKeys) {}
  lemma AutomobileDisjointGeneralLiability() ensures Disjoint(AutomobileKeys, GeneralLiabilityKeys) {}
  lemma AutomobileDisjointTrailer() ensures Disjoint(AutomobileKeys, TrailerKeys) {}
  lemma AutomobileDisjointOther() ensures Disjoint(AutomobileKeys, OtherKeys) {}
  lemma GeneralLiabilityDisjointTrailer() ensures Disjoint(GeneralLiabilityKeys, TrailerKeys) {}
  lemma GeneralLiabilityDisjointOther() ensures Disjoint(GeneralLiabilityKeys, OtherKeys) {}
  lemma TrailerDisjointOther() ensures Disjoint(TrailerKeys, OtherKeys) {}

  /** No two sections share a key. */
  lemma SectionsDisjoint()
    ensures Disjoint(HeaderKeys, AutomobileKeys) && Disjoint(HeaderKeys, GeneralLiabilityKeys)
    ensures Disjoint(HeaderKeys, TrailerKeys) && Disjoint(HeaderKeys, OtherKeys)
    ensures Disjoint(AutomobileKeys, GeneralLiabilityKeys) && Disjoint(AutomobileKeys, TrailerKeys)
    ensures Disjoint(AutomobileKeys, OtherKeys) && Disjoint(GeneralLiabilityKeys, TrailerKeys)
    ensures Disjoint(GeneralLiabilityKeys, OtherKeys) && Disjoint(TrailerKeys, OtherKeys)
  {
    HeaderDisjointAutomobile();
    HeaderDisjointGeneralLiability();
    HeaderDisjointTrailer();
    HeaderDisjointOther();
    AutomobileDisjointGeneralLiability();
    AutomobileDisjointTrailer();
    AutomobileDisjointOther();
    GeneralLiabilityDisjointTrailer();
    GeneralLiabilityDisjointOther();
    TrailerDisjointOther();
  }

  /** The form has 28 distinct keys. */
  lemma FormKeysDistinct()
    ensures |FormKeys| == 28 && Distinct(FormKeys)
  {
    var h, a, g, t, o := HeaderKeys, AutomobileKeys, GeneralLiabilityKeys, TrailerKeys, OtherKeys;
    SectionsDistinct();
    SectionsDisjoint();
    DistinctConcat(h, a);
    DisjointConcat(h, a, g);
    DistinctConcat(h + a, g);
    DisjointConcat(h, a, t);
    DisjointConcat(h + a, g, t);
    DistinctConcat(h + a + g, t);
    DisjointConcat(h, a, o);
    DisjointConcat(h + a, g, o);
    DisjointConcat(h + a + g, t, o);
    DistinctConcat(h + a + g + t, o);
  }

  /** An update with nothing leaves the form as it was. */
  lemma UpdateWithNothing(form: map<string, Value>)
    ensures UpdatedForm(form, map[]) == form
  {
  }

  /** Repeating an update changes nothing more. */
  lemma UpdateIdempotent(form: map<string, Value>, flat: map<string, Value>)
    ensures UpdatedForm(UpdatedForm(form, flat), flat) == UpdatedForm(form, flat)
  {
    forall k | k in form && k in flat
      ensures FormValue(FormValue(flat[k])) == FormValue(flat[k])
    {
      FormValueIdempotent(flat[k]);
    }
  }

  /** Adding one entry to an update writes that one key, if the form has it. */
  lemma UpdateExtend(form: map<string, Value>, flat: map<string, Value>, key: string, v: Value)
    ensures UpdatedForm(form, flat[key := v]) ==
      if key in form then UpdatedForm(form, flat)[key := FormValue(v)] else UpdatedForm(form, flat)
  {
  }

  /** Two updates in turn are one update with the merged dict, the later
      dict winning on shared keys. */
  lemma UpdateCompose(form: map<string, Value>, a: map<string, Value>, b: map<string, Value>)
    ensures UpdatedForm(UpdatedForm(form, a), b) == UpdatedForm(form, a + b)
  {
  }

  /** Keys outside the form have no effect. */
  lemma UpdateIgnoresUnknown(form: map<string, Value>, flat: map<string, Value>)
    ensures UpdatedForm(form, flat) == UpdatedForm(form, map k | k in flat && k in form :: flat[k])
  {
  }

  /** A form of strings stays a form of strings under an update whose
      values are strings, numbers or booleans. */
  lemma UpdateKeepsText(form: map<string, Value>, flat: map<string, Value>)
    requires forall k :: k in form ==> form[k].Str?
    requires forall k :: k in flat ==> flat[k].Str? || flat[k].Int? || flat[k].Bool?
    ensures forall k :: k in UpdatedForm(form, flat) ==> UpdatedForm(form, flat)[k].Str?
  {
  }
}
