/** The status cards of the main page (UI.py): from the last structured
    reply, count the coverage categories present, those with at least one
    truthy value, and those whose expiry date lies before today. A Python
    exception inside the block ends the page run; it is `None` here. */
module Dashboard {
  import opened Wrappers
  import opened Text
  import opened Values

  /** The three coverage categories the cards look at, in loop order. */
  const Categories: seq<string> := ["automobileLiability", "commercialGeneralLiability", "nonOwnedTrailer"]

  const ExpiryKey: string := "expiryDate"

  datatype Counts = Counts(verified: nat, total: nat, complianceIssues: nat)

  /** Python's `category in data` holds. */
  predicate Has(data: Value, c: string) {
    Contains(data, c) == Some(true)
  }

  /** `data[category]` of a present category is a dict. */
  predicate IsDictAt(data: Value, c: string) {
    Subscript(data, c).Some? && Subscript(data, c).value.Obj?
  }

  /** The loops get past category `c` without an exception: the `in` test is
      defined, a present category is a dict (so that `.values()` and the
      second subscript work), and a truthy expiry date is a string (so that
      `<` against today's string is defined). */
  predicate Sound(data: Value, c: string) {
    && Contains(data, c).Some?
    && (Has(data, c) ==>
          && IsDictAt(data, c)
          && var f := Subscript(data, c).value.fields;
             ExpiryKey in f && Truthy(f[ExpiryKey]) ==> f[ExpiryKey].Str?)
  }

  /** Python's `any(fields.values())`. */
  predicate AnyTruthy(fields: map<string, Value>) {
    exists k :: k in fields && Truthy(fields[k])
  }

  /** Counted toward verified: present, with some truthy value. */
  predicate IsVerified(data: Value, c: string) {
    Has(data, c) && IsDictAt(data, c) && AnyTruthy(Subscript(data, c).value.fields)
  }

  /** Counted as a compliance issue: present, with a non-empty expiry string
      that sorts before today's string. */
  predicate IsOverdue(data: Value, c: string, today: string) {
    Has(data, c) && IsDictAt(data, c) &&
    var f := Subscript(data, c).value.fields;
    ExpiryKey in f && f[ExpiryKey].Str? && f[ExpiryKey].s != [] && LexLess(f[ExpiryKey].s, today)
  }

  /** How many of `cats` satisfy `p`. */
  function Count(cats: seq<string>, p: string -> bool): (n: nat)
    ensures n <= |cats|
  {
    if cats == [] then 0
    else Count(cats[..|cats| - 1], p) + (if p(cats[|cats| - 1]) then 1 else 0)
  }

  /** What the cards show for the stored reply `data`, defined by counting
      rather than by running the loops. */
  function DashboardOf(data: Value, today: string): (r: Option<Counts>) {
    if !Truthy(data) then Some(Counts(0, 0, 0))
    else if exists c :: c in Categories && !Sound(data, c) then None
    else Some(Counts(
      Count(Categories, c => IsVerified(data, c)),
      Count(Categories, c => Has(data, c)),
      Count(Categories, c => IsOverdue(data, c, today))))
  }

  lemma CountStep(cats: seq<string>, i: nat, p: string -> bool)
    requires i < |cats|
    ensures Count(cats[..i + 1], p) == Count(cats[..i], p) + (if p(cats[i]) then 1 else 0)
  {
    assert cats[..i + 1][..i] == cats[..i];
  }

  /** The two counting loops of the main page. */
  method CountCoverage(data: Value, today: string) returns (r: Option<Counts>)
    ensures r == DashboardOf(data, today)
  {
    var verified, total, issues := 0, 0, 0;
    if Truthy(data) {
      for i := 0 to |Categories|
        invariant forall j :: 0 <= j < i ==> Contains(data, Categories[j]).Some?
        invariant forall j :: 0 <= j < i && Has(data, Categories[j]) ==> IsDictAt(data, Categories[j])
        invariant verified == Count(Categories[..i], c => IsVerified(data, c))
        invariant total == Count(Categories[..i], c => Has(data, c))
      {
        var category := Categories[i];
        CountStep(Categories, i, c => IsVerified(data, c));
        CountStep(Categories, i, c => Has(data, c));
        var present := Contains(data, category);
        if present.None? {
          assert !Sound(data, category);
          return None;
        }
        if present.value {
          var group := Subscript(data, category);
          if group.None? || !group.value.Obj? {
            assert !Sound(data, category);
            return None;
          }
          if AnyTruthy(group.value.fields) {
            verified := verified + 1;
          }
          total := total + 1;
        }
      }
      assert Categories[..|Categories|] == Categories;
      for i := 0 to |Categories|
        invariant forall j :: 0 <= j < |Categories| ==> Contains(data, Categories[j]).Some?
        invariant forall j :: 0 <= j < |Categories| && Has(data, Categories[j]) ==> IsDictAt(data, Categories[j])
        invariant forall j :: 0 <= j < i ==> Sound(data, Categories[j])
        invariant issues == Count(Categories[..i], c => IsOverdue(data, c, today))
      {
        var category := Categories[i];
        CountStep(Categories, i, c => IsOverdue(data, c, today));
        if Contains(data, category).value {
          var fields := Subscript(data, category).value.fields;
          if ExpiryKey in fields {
            var expiry := fields[ExpiryKey];
            if Truthy(expiry) {
              if !expiry.Str? {
                assert !Sound(data, category);
                return None;
              }
              if LexLess(expiry.s, today) {
                issues := issues + 1;
              }
            }
          }
        }
      }
      assert forall c :: c in Categories ==> exists j :: 0 <= j < |Categories| && Categories[j] == c;
    }
    r := Some(Counts(verified, total, issues));
  }

  lemma {:induction false} CountMonotone(cats: seq<string>, p: string -> bool, q: string -> bool)
    requires forall c :: p(c) ==> q(c)
    ensures Count(cats, p) <= Count(cats, q)
  {
    if cats != [] {
      CountMonotone(cats[..|cats| - 1], p, q);
    }
  }

  /** Every category is counted exactly when all of them satisfy `p`. */
  lemma {:induction false} CountAll(cats: seq<string>, p: string -> bool)
    ensures Count(cats, p) == |cats| <==> forall i :: 0 <= i < |cats| ==> p(cats[i])
  {
    if cats != [] {
      var n := |cats| - 1;
      CountAll(cats[..n], p);
      assert forall i :: 0 <= i < n ==> cats[..n][i] == cats[i];
    }
  }

  /** None is counted exactly when no category satisfies `p`. */
  lemma {:induction false} CountNone(cats: seq<string>, p: string -> bool)
    ensures Count(cats, p) == 0 <==> forall i :: 0 <= i < |cats| ==> !p(cats[i])
  {
    if cats != [] {
      var n := |cats| - 1;
      CountNone(cats[..n], p);
      assert forall i :: 0 <= i < n ==> cats[..n][i] == cats[i];
    }
  }

  /** The cards never show more verified coverages than coverages, more
      coverages than the three categories, or more compliance issues than
      coverages. */
  lemma DashboardBounds(data: Value, today: string)
    requires DashboardOf(data, today).Some?
    ensures var n := DashboardOf(data, today).value;
      n.verified <= n.total <= |Categories| && n.complianceIssues <= n.total
  {
    if Truthy(data) {
      CountMonotone(Categories, c => IsVerified(data, c), c => Has(data, c));
      CountMonotone(Categories, c => IsOverdue(data, c, today), c => Has(data, c));
    }
  }

  /** All three categories count as coverages exactly when all are present,
      and none does exactly when none is. */
  lemma DashboardTotal(data: Value, today: string)
    requires Truthy(data) && DashboardOf(data, today).Some?
    ensures DashboardOf(data, today).value.total == 3 <==> forall c :: c in Categories ==> Has(data, c)
    ensures DashboardOf(data, today).value.total == 0 <==> forall c :: c in Categories ==> !Has(data, c)
  {
    CountAll(Categories, c => Has(data, c));
    CountNone(Categories, c => Has(data, c));
  }

  /** For expiry and today written as `yyyy/mm/dd`, the string comparison
      the cards use is the comparison of the dates. */
  lemma OverdueIsEarlierDate(data: Value, c: string, today: string)
    requires Has(data, c) && IsDictAt(data, c)
    requires var f := Subscript(data, c).value.fields;
      ExpiryKey in f && f[ExpiryKey].Str? && IsDate(f[ExpiryKey].s)
    requires IsDate(today)
    ensures IsOverdue(data, c, today) <==> DateKey(Subscript(data, c).value.fields[ExpiryKey].s) < DateKey(today)
  {
    DateStringOrder(Subscript(data, c).value.fields[ExpiryKey].s, today);
  }

  /** A reply with three coverage dicts, each holding a truthy value, and no
      expiry dates shows three verified coverages and no compliance issue. */
  lemma DashboardAllVerified(a: Value, g: Value, t: Value, today: string)
    requires a.Obj? && g.Obj? && t.Obj?
    requires AnyTruthy(a.fields) && AnyTruthy(g.fields) && AnyTruthy(t.fields)
    requires ExpiryKey !in a.fields && ExpiryKey !in g.fields && ExpiryKey !in t.fields
    ensures DashboardOf(Obj(map[Categories[0] := a, Categories[1] := g, Categories[2] := t]), today)
      == Some(Counts(3, 3, 0))
  {
    var data := Obj(map[Categories[0] := a, Categories[1] := g, Categories[2] := t]);
    assert IsVerified(data, Categories[0]) && IsVerified(data, Categories[1]) && IsVerified(data, Categories[2]);
    CountAll(Categories, c => IsVerified(data, c));
    CountAll(Categories, c => Has(data, c));
    CountNone(Categories, c => IsOverdue(data, c, today));
  }
}
