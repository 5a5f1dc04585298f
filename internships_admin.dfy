/**
 * The internship admin: the colour of the application-count column, and the bulk actions
 * that set `is_active` or `is_featured` on every selected internship with one update.
 */
module InternshipAdmin {
  import opened Internships

  datatype Colour = Gray | Green | Orange | Red

  /** The colours in increasing order of how busy an internship is. */
  function Rank(c: Colour): nat {
    match c
    case Gray => 0
    case Green => 1
    case Orange => 2
    case Red => 3
  }

  /** The colour of the application count: none, fewer than 10, fewer than 25, or more. */
  function CountColour(count: nat): (c: Colour)
    ensures c == Gray <==> count == 0
    ensures c == Green <==> 1 <= count < 10
    ensures c == Orange <==> 10 <= count < 25
    ensures c == Red <==> count >= 25
  {
    if count == 0 then Gray
    else if count < 10 then Green
    else if count < 25 then Orange
    else Red
  }

  /** More applications never give a calmer colour. */
  lemma CountColourMonotone(a: nat, b: nat)
    requires a <= b
    ensures Rank(CountColour(a)) <= Rank(CountColour(b))
  {
  }

  /** Which flag a bulk action writes. */
  datatype Flag = Active | Featured

  /** One row after the update writes `value` into `flag`. */
  function SetFlag(i: Internship, flag: Flag, value: bool): Internship {
    match flag
    case Active => i.(isActive := value)
    case Featured => i.(isFeatured := value)
  }

  /**
   * The catalog after `queryset.update(flag=value)`: the same keys, the flag written on each
   * selected row, and every other field and every unselected row as before.
   */
  function WithFlag(rows: map<int, Internship>, selection: set<int>, flag: Flag, value: bool): (r: map<int, Internship>)
    ensures r.Keys == rows.Keys
    ensures forall id | id in r :: r[id] == if id in selection then SetFlag(rows[id], flag, value) else rows[id]
  {
    map id | id in rows :: if id in selection then SetFlag(rows[id], flag, value) else rows[id]
  }

  /** Selected rows carry the written value, and only the written flag can differ from before. */
  lemma WithFlagEffect(rows: map<int, Internship>, selection: set<int>, flag: Flag, value: bool)
    ensures forall id | id in selection && id in rows ::
      (if flag == Active then WithFlag(rows, selection, flag, value)[id].isActive
       else WithFlag(rows, selection, flag, value)[id].isFeatured) == value
    ensures forall id | id in rows ::
      WithFlag(rows, selection, flag, value)[id].(isActive := rows[id].isActive, isFeatured := rows[id].isFeatured)
      == rows[id]
  {
  }

  /** Running the same action twice is the same as running it once. */
  lemma {:induction false} WithFlagIdempotent(rows: map<int, Internship>, selection: set<int>, flag: Flag, value: bool)
    ensures WithFlag(WithFlag(rows, selection, flag, value), selection, flag, value) == WithFlag(rows, selection, flag, value)
  {
    var once := WithFlag(rows, selection, flag, value);
    var twice := WithFlag(once, selection, flag, value);
    forall id | id in twice
      ensures twice[id] == once[id]
    {
      if id in selection {
        assert twice[id] == SetFlag(once[id], flag, value);
      }
    }
  }

  /** None of the three actions clears `is_featured`: a featured internship stays featured. */
  lemma NoActionUnfeatures(rows: map<int, Internship>, selection: set<int>, value: bool, id: int)
    requires id in rows && rows[id].isFeatured
    ensures WithFlag(rows, selection, Active, value)[id].isFeatured
    ensures WithFlag(rows, selection, Featured, true)[id].isFeatured
  {
  }

  /** The updated rows keep their keys. */
  lemma WithFlagKeepsValid(rows: map<int, Internship>, selection: set<int>, flag: Flag, value: bool)
    requires forall id | id in rows :: rows[id].id == id
    ensures forall id | id in WithFlag(rows, selection, flag, value) :: WithFlag(rows, selection, flag, value)[id].id == id
  {
  }

  /** One bulk action: one update over the selected rows, reporting how many it updated. */
  method UpdateSelected(catalog: Catalog, selection: set<int>, flag: Flag, value: bool) returns (updated: nat)
    requires catalog.Valid() && selection <= catalog.internships.Keys
    modifies catalog
    ensures catalog.Valid()
    ensures catalog.internships == WithFlag(old(catalog.internships), selection, flag, value)
    ensures updated == |selection|
  {
    WithFlagKeepsValid(catalog.internships, selection, flag, value);
    catalog.internships := WithFlag(catalog.internships, selection, flag, value);
    updated := |selection|;
  }

  /** `activate_internships`. */
  method ActivateInternships(catalog: Catalog, selection: set<int>) returns (updated: nat)
    requires catalog.Valid() && selection <= catalog.internships.Keys
    modifies catalog
    ensures catalog.Valid()
    ensures catalog.internships == WithFlag(old(catalog.internships), selection, Active, true)
    ensures updated == |selection|
  {
    updated := UpdateSelected(catalog, selection, Active, true);
  }

  /** `deactivate_internships`. */
  method DeactivateInternships(catalog: Catalog, selection: set<int>) returns (updated: nat)
    requires catalog.Valid() && selection <= catalog.internships.Keys
    modifies catalog
    ensures catalog.Valid()
    ensures catalog.internships == WithFlag(old(catalog.internships), selection, Active, false)
    ensures updated == |selection|
  {
    updated := UpdateSelected(catalog, selection, Active, false);
  }

  /** `feature_internships`. */
  method FeatureInternships(catalog: Catalog, selection: set<int>) returns (updated: nat)
    requires catalog.Valid() && selection <= catalog.internships.Keys
    modifies catalog
    ensures catalog.Valid()
    ensures catalog.internships == WithFlag(old(catalog.internships), selection, Featured, true)
    ensures updated == |selection|
  {
    updated := UpdateSelected(catalog, selection, Featured, true);
  }
}
