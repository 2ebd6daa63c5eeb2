/**
 * Group queries of CwmsDataManager: the optional WHERE condition of getTimeSeriesGroups
 * (buildWhereCondition and its helper and), and getLocationGroup's assembly of one group
 * from the assignment rows.
 */
module Groups {
  import opened Wrappers

  // ---------------------------------------------------------------- buildWhereCondition

  /** The AV_TS_CAT_GRP columns a time-series group query can filter on. */
  datatype Column = GrpDbOfficeId | TsCategoryId | TsGroupId

  /** One `column = value` filter. */
  datatype Atom = Atom(column: Column, value: string)

  /** A jOOQ Condition built from equalities and `and`. */
  datatype Condition = Eq(atom: Atom) | And(left: Condition, right: Condition)

  /** The equalities a condition conjoins, left to right. */
  function Atoms(c: Condition): seq<Atom>
  {
    match c
    case Eq(a) => [a]
    case And(l, r) => Atoms(l) + Atoms(r)
  }

  /** A row of AV_TS_CAT_GRP, as far as the filters read it. */
  type Row = map<Column, string>

  predicate AtomHolds(a: Atom, row: Row)
  {
    a.column in row && row[a.column] == a.value
  }

  /** How the database evaluates a condition on a row. */
  predicate Holds(c: Condition, row: Row)
  {
    match c
    case Eq(a) => AtomHolds(a, row)
    case And(l, r) => Holds(l, row) && Holds(r, row)
  }

  /** Every equality of `atoms` holds on the row. */
  predicate AllHold(atoms: seq<Atom>, row: Row)
  {
    forall i :: 0 <= i < |atoms| ==> AtomHolds(atoms[i], row)
  }

  lemma AllHoldConcat(a: seq<Atom>, b: seq<Atom>, row: Row)
    ensures AllHold(a + b, row) <==> AllHold(a, row) && AllHold(b, row)
  {
    if AllHold(a, row) && AllHold(b, row) {
      forall i | 0 <= i < |a + b| ensures AtomHolds((a + b)[i], row) {
        if i >= |a| {
          assert (a + b)[i] == b[i - |a|];
        }
      }
    }
    if AllHold(a + b, row) {
      forall i | 0 <= i < |b| ensures AtomHolds(b[i], row) {
        assert (a + b)[|a| + i] == b[i];
      }
      forall i | 0 <= i < |a| ensures AtomHolds(a[i], row) {
        assert (a + b)[i] == a[i];
      }
    }
  }

  /** A condition selects exactly the rows that satisfy every one of its equalities. */
  lemma {:induction false} HoldsIffAllAtoms(c: Condition, row: Row)
    ensures Holds(c, row) <==> AllHold(Atoms(c), row)
  {
    match c
    case Eq(a) =>
      assert Atoms(c) == [a];
      assert AllHold([a], row) <==> AtomHolds([a][0], row);
    case And(l, r) =>
      HoldsIffAllAtoms(l, row);
      HoldsIffAllAtoms(r, row);
      AllHoldConcat(Atoms(l), Atoms(r), row);
  }

  /** CwmsDataManager.and: `and(null, c)` is `c`, otherwise the conjunction of the two. */
  function AndCondition(whereCondition: Option<Condition>, cond: Condition): (r: Condition)
    ensures whereCondition.None? ==> r == cond
    ensures Atoms(r) == (if whereCondition.None? then [] else Atoms(whereCondition.value)) + Atoms(cond)
  {
    if whereCondition.None? then cond else And(whereCondition.value, cond)
  }

  /** A filter argument counts when it is neither null nor empty. */
  predicate Supplied(s: Option<string>)
  {
    s.Some? && s.value != ""
  }

  /** The filters asked for: office, category and group, those supplied, in that order. */
  function RequestedAtoms(officeId: Option<string>, categoryId: Option<string>, groupId: Option<string>)
    : seq<Atom>
  {
    (if Supplied(officeId) then [Atom(GrpDbOfficeId, officeId.value)] else [])
    + (if Supplied(categoryId) then [Atom(TsCategoryId, categoryId.value)] else [])
    + (if Supplied(groupId) then [Atom(TsGroupId, groupId.value)] else [])
  }

  /**
   * CwmsDataManager.buildWhereCondition: no condition when no filter is supplied; otherwise one conjoining
   * exactly the supplied filters, in argument order.
   */
  method BuildWhereCondition(officeId: Option<string>, categoryId: Option<string>, groupId: Option<string>)
    returns (whereCondition: Option<Condition>)
    ensures whereCondition.None? <==> !Supplied(officeId) && !Supplied(categoryId) && !Supplied(groupId)
    ensures whereCondition.Some? ==> Atoms(whereCondition.value) == RequestedAtoms(officeId, categoryId, groupId)
  {
    whereCondition := None;
    if Supplied(officeId) {
      whereCondition := Some(AndCondition(whereCondition, Eq(Atom(GrpDbOfficeId, officeId.value))));
    }
    if Supplied(categoryId) {
      whereCondition := Some(AndCondition(whereCondition, Eq(Atom(TsCategoryId, categoryId.value))));
    }
    if Supplied(groupId) {
      whereCondition := Some(AndCondition(whereCondition, Eq(Atom(TsGroupId, groupId.value))));
    }
  }

  /**
   * With all three filters supplied, the condition keeps a row exactly when its office,
   * category and group are the ones asked for.
   */
  lemma AllFiltersSelect(c: Condition, office: string, category: string, group: string, row: Row)
    requires office != "" && category != "" && group != ""
    requires Atoms(c) == RequestedAtoms(Some(office), Some(category), Some(group))
    ensures Holds(c, row) <==> GrpDbOfficeId in row && row[GrpDbOfficeId] == office
                               && TsCategoryId in row && row[TsCategoryId] == category
                               && TsGroupId in row && row[TsGroupId] == group
  {
    HoldsIffAllAtoms(c, row);
    var atoms := [Atom(GrpDbOfficeId, office), Atom(TsCategoryId, category), Atom(TsGroupId, group)];
    assert Atoms(c) == atoms;
    if AllHold(atoms, row) {
      assert AtomHolds(atoms[0], row) && AtomHolds(atoms[1], row) && AtomHolds(atoms[2], row);
    }
  }

  // ---------------------------------------------------------------- getLocationGroup

  datatype LocationCategory = LocationCategory(officeId: string, id: string, description: Option<string>)

  /** A location assigned to a group, as buildAssignedLocation reads it from one row. */
  datatype AssignedLocation = AssignedLocation(
    locationId: string, baseLocationId: string, subLocationId: Option<string>, aliasId: Option<string>,
    attribute: Option<int>, locationCode: int, refLocationId: Option<string>)

  /** A LocationGroup; buildLocationGroup leaves its assigned locations empty. */
  datatype LocationGroup = LocationGroup(
    category: LocationCategory, officeId: string, id: string, description: Option<string>,
    sharedAliasId: Option<string>, sharedRefLocationId: Option<string>, attribute: Option<int>,
    assignedLocations: seq<AssignedLocation>)

  /** What the record mapper makes of one row: the row's group and its assigned location. */
  datatype Assignment = Assignment(group: LocationGroup, location: AssignedLocation)

  /**
   * CwmsDataManager.getLocationGroup: no rows, no group; otherwise the first row's group carrying every row's
   * assigned location, in row order.
   */
  function GetLocationGroup(assignments: seq<Assignment>): (r: Option<LocationGroup>)
    ensures r.None? <==> assignments == []
    ensures r.Some? ==>
      && r.value.(assignedLocations := []) == assignments[0].group.(assignedLocations := [])
      && |r.value.assignedLocations| == |assignments|
      && forall i :: 0 <= i < |assignments| ==> r.value.assignedLocations[i] == assignments[i].location
  {
    if assignments == [] then None
    else
      var locations := seq(|assignments|, i requires 0 <= i < |assignments| => assignments[i].location);
      Some(assignments[0].group.(assignedLocations := locations))
  }

  /** The group's identity comes from the first row alone: later rows only add locations. */
  lemma GroupFromFirstRow(first: Assignment, rest: seq<Assignment>, others: seq<Assignment>)
    requires |others| == |rest|
    requires forall i :: 0 <= i < |rest| ==> others[i].location == rest[i].location
    ensures GetLocationGroup([first] + rest) == GetLocationGroup([first] + others)
  {
    var a, b := GetLocationGroup([first] + rest).value, GetLocationGroup([first] + others).value;
    assert a.assignedLocations == b.assignedLocations by {
      forall i | 0 <= i < |a.assignedLocations| ensures a.assignedLocations[i] == b.assignedLocations[i] {
        if i > 0 {
          assert ([first] + rest)[i] == rest[i - 1];
          assert ([first] + others)[i] == others[i - 1];
        }
      }
    }
  }
}
