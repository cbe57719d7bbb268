/** A position in the organisation: its holder, its organisational unit, its superior position and a
    lazily created set of subordinate positions. */
module Positions {
  import opened Wrappers

  datatype Participant = Participant(id: nat)
  datatype OrganizationUnit = OrganizationUnit(id: nat)

  /** The mutable set object `getSubordinatePositionImpls` hands out. */
  class PositionSet {
    var elems: set<PositionImpl>

    constructor ()
      ensures elems == {}
    {
      elems := {};
    }
  }

  class PositionImpl {
    var positionHolder: Option<Participant>
    var organizationalUnit: Option<OrganizationUnit>
    var superiorPosition: PositionImpl?
    var subordinatePositions: PositionSet?

    constructor ()
      ensures positionHolder == None && organizationalUnit == None
      ensures superiorPosition == null && subordinatePositions == null
    {
      positionHolder := None;
      organizationalUnit := None;
      superiorPosition := null;
      subordinatePositions := null;
    }

    function GetPositionHolder(): (holder: Option<Participant>)
      reads this
      ensures holder == positionHolder
    {
      positionHolder
    }

    method SetPositionHolder(participant: Option<Participant>) returns (position: PositionImpl)
      modifies this`positionHolder
      ensures position == this && GetPositionHolder() == participant
    {
      positionHolder := participant;
      return this;
    }

    function GetSuperiorPosition(): (superior: PositionImpl?)
      reads this
      ensures superior == superiorPosition
    {
      superiorPosition
    }

    method SetSuperiorPosition(position: PositionImpl?) returns (self: PositionImpl)
      modifies this`superiorPosition
      ensures self == this && GetSuperiorPosition() == position
    {
      superiorPosition := position;
      return this;
    }

    /** The getter form of `belongstoOrganization`. */
    function BelongstoOrganization(): (unit: Option<OrganizationUnit>)
      reads this
      ensures unit == organizationalUnit
    {
      organizationalUnit
    }

    /** The setter form of `belongstoOrganization`. */
    method SetBelongstoOrganization(unit: Option<OrganizationUnit>) returns (position: PositionImpl)
      modifies this`organizationalUnit
      ensures position == this && BelongstoOrganization() == unit
    {
      organizationalUnit := unit;
      return this;
    }

    /** A new empty set on the first call, the same set object on every later call. */
    method GetSubordinatePositionImpls() returns (subordinates: PositionSet)
      modifies this`subordinatePositions
      ensures subordinatePositions == subordinates
      ensures old(subordinatePositions) == null ==> fresh(subordinates) && subordinates.elems == {}
      ensures old(subordinatePositions) != null ==> subordinates == old(subordinatePositions)
    {
      if subordinatePositions == null {
        subordinatePositions := new PositionSet();
      }
      subordinates := subordinatePositions;
    }
  }
}
