/** LocationService: the storage locations, with names unique ignoring
    letter case. */
module LocationService {
  import opened Common
  import opened Strings
  import opened Audit
  import opened Entities
  import opened Repositories

  /** No two locations carry names that are equal ignoring case. */
  predicate NamesUnique(rows: map<int, Location>) {
    forall a, b :: a in rows && b in rows && a != b && rows[a].locationName.Some? && rows[b].locationName.Some?
                   ==> !EqualsIgnoreCase(rows[a].locationName.value, rows[b].locationName.value)
  }

  /** Every location is stored under its own id. */
  predicate LocationTableValid(rows: map<int, Location>) {
    forall k :: k in rows ==> rows[k].locationId == k
  }

  /** locationRepository.save: stored under its id. */
  function SaveLocation(rows: map<int, Location>, location: Location): (r: map<int, Location>)
    ensures LocationTableValid(rows) ==> LocationTableValid(r)
    ensures r.Keys == rows.Keys + {location.locationId} && r[location.locationId] == location
  {
    rows[location.locationId := location]
  }

  function DuplicateAddMessage(name: string): string {
    "Location with name '" + name + "' already exists."
  }

  /** addLocation as written: the duplicate check uses the trimmed name, but
      the location is saved with its name as given. */
  function AddLocationAsWritten(rows: map<int, Location>, location: Location): (r: Result<map<int, Location>>)
    ensures location.locationName.None? ==> r == Err(NullPointer)
    ensures location.locationName.Some? && ExistsByLocationNameIgnoreCase(rows, Trim(location.locationName.value))
            ==> r == Err(IllegalArgument(DuplicateAddMessage(Trim(location.locationName.value))))
    ensures r.Ok? ==> r.value == SaveLocation(rows, location)
    ensures location.locationName.Some? && !ExistsByLocationNameIgnoreCase(rows, Trim(location.locationName.value))
            ==> r == Ok(SaveLocation(rows, location))
  {
    if location.locationName.None? then Err(NullPointer)
    else
      var cleanName := Trim(location.locationName.value);
      if ExistsByLocationNameIgnoreCase(rows, cleanName) then Err(IllegalArgument(DuplicateAddMessage(cleanName)))
      else Ok(SaveLocation(rows, location))
  }

  /** Adding "Cebu " next to a stored "Cebu " passes the check, since
      "Cebu" differs from "Cebu " even ignoring case, and leaves two locations
      of the same name. */
  lemma AsWrittenAdmitsDuplicate()
    ensures var rows := map[1 := Location(1, Some("Cebu "))];
            && NamesUnique(rows)
            && AddLocationAsWritten(rows, Location(2, Some("Cebu "))).Ok?
            && !NamesUnique(AddLocationAsWritten(rows, Location(2, Some("Cebu "))).value)
  {
    var rows := map[1 := Location(1, Some("Cebu "))];
    TrimDropsTrailingSpace();
    assert !ExistsByLocationNameIgnoreCase(rows, "Cebu") by {
      assert !EqualsIgnoreCase("Cebu ", "Cebu") by {
        assert |Lower("Cebu ")| != |Lower("Cebu")|;
      }
    }
    var after := AddLocationAsWritten(rows, Location(2, Some("Cebu "))).value;
    assert after == SaveLocation(rows, Location(2, Some("Cebu ")));
    assert after[1].locationName == after[2].locationName == Some("Cebu ");
  }

  lemma TrimDropsTrailingSpace()
    ensures Trim("Cebu ") == "Cebu"
  {
    assert TrimStart("Cebu ") == "Cebu ";
    assert "Cebu "[..4] == "Cebu";
    assert TrimEnd("Cebu "[..4]) == "Cebu";
  }

  /** addLocation as evidently intended: the trimmed name is both checked
      and saved. */
  function AddLocationSpec(rows: map<int, Location>, location: Location): (r: Result<map<int, Location>>)
    ensures location.locationName.None? ==> r == Err(NullPointer)
    ensures location.locationName.Some? && ExistsByLocationNameIgnoreCase(rows, Trim(location.locationName.value))
            ==> r == Err(IllegalArgument(DuplicateAddMessage(Trim(location.locationName.value))))
    ensures r.Ok? <==> location.locationName.Some? && !ExistsByLocationNameIgnoreCase(rows, Trim(location.locationName.value))
    ensures r.Ok? ==> r.value == SaveLocation(rows, location.(locationName := Some(Trim(location.locationName.value))))
  {
    if location.locationName.None? then Err(NullPointer)
    else
      var cleanName := Trim(location.locationName.value);
      if ExistsByLocationNameIgnoreCase(rows, cleanName) then Err(IllegalArgument(DuplicateAddMessage(cleanName)))
      else Ok(SaveLocation(rows, location.(locationName := Some(cleanName))))
  }

  /** The corrected add keeps the names unique ignoring case. */
  lemma AddKeepsNamesUnique(rows: map<int, Location>, location: Location)
    requires NamesUnique(rows) && AddLocationSpec(rows, location).Ok?
    ensures NamesUnique(AddLocationSpec(rows, location).value)
  {
    var name := Trim(location.locationName.value);
    var after := AddLocationSpec(rows, location).value;
    forall a, b | a in after && b in after && a != b && after[a].locationName.Some? && after[b].locationName.Some?
      ensures !EqualsIgnoreCase(after[a].locationName.value, after[b].locationName.value)
    {
      if a == location.locationId {
        assert !(b in rows && rows[b].locationName.Some? && EqualsIgnoreCase(rows[b].locationName.value, name));
      } else if b == location.locationId {
        assert !(a in rows && rows[a].locationName.Some? && EqualsIgnoreCase(rows[a].locationName.value, name));
      }
    }
  }

  function NotFoundMessage(name: Option<string>): string {
    "Location not found with name: " + Show(name)
  }

  /** getLocationByName: the exact name, or a RuntimeException. */
  function LocationByName(rows: map<int, Location>, name: Option<string>): (r: Result<Location>)
    ensures r.Ok? ==> exists k :: k in rows && rows[k] == r.value && r.value.locationName == name
    ensures r == Err(Runtime(NotFoundMessage(name))) <==> forall k :: k in rows ==> rows[k].locationName != name
    ensures r == Err(NonUniqueResult) <==>
              exists a, b :: a in rows && b in rows && a != b && rows[a].locationName == name && rows[b].locationName == name
    ensures forall k :: (k in rows && rows[k].locationName == name
                         && forall j :: j in rows && rows[j].locationName == name ==> j == k)
                        ==> r == Ok(rows[k])
    ensures r.Err? ==> r.error == Runtime(NotFoundMessage(name)) || r.error == NonUniqueResult
  {
    match FindByLocationName(rows, name)
    case Err(e) => Err(e)
    case Ok(None) => Err(Runtime(NotFoundMessage(name)))
    case Ok(Some(k)) => Ok(rows[k])
  }

  function TakenNameMessage(name: string): string {
    "Location name '" + name + "' already exists."
  }

  /** Whether updateLocation renames: a non-blank trimmed name that differs,
      ignoring case, from the current name. */
  predicate Renames(current: Location, newName: string) {
    !IsBlank(newName) && (current.locationName.None? || !EqualsIgnoreCase(newName, current.locationName.value))
  }

  /** updateLocation: find the location by its exact name, trim the new
      name, rename when `Renames` says so and the name is free ignoring case,
      and save the location in either case. */
  function UpdateLocationSpec(rows: map<int, Location>, name: Option<string>, updated: Location): (r: Result<Location>)
    ensures LocationByName(rows, name).Err? ==> r == Err(LocationByName(rows, name).error)
    ensures LocationByName(rows, name).Ok? && updated.locationName.None? ==> r == Err(NullPointer)
    ensures LocationByName(rows, name).Ok? && updated.locationName.Some? ==>
              var current := LocationByName(rows, name).value;
              var newName := Trim(updated.locationName.value);
              && (r.Ok? <==> !(Renames(current, newName) && ExistsByLocationNameIgnoreCase(rows, newName)))
              && (Renames(current, newName) && !ExistsByLocationNameIgnoreCase(rows, newName)
                  ==> r == Ok(current.(locationName := Some(newName))))
    ensures r.Ok? ==>
              var current := LocationByName(rows, name).value;
              var newName := Trim(updated.locationName.value);
              && r.value.locationId == current.locationId
              && (Renames(current, newName) ==> r.value.locationName == Some(newName) && !ExistsByLocationNameIgnoreCase(rows, newName))
              && (!Renames(current, newName) ==> r.value == current)
  {
    match LocationByName(rows, name)
    case Err(e) => Err(e)
    case Ok(current) =>
      if updated.locationName.None? then Err(NullPointer)
      else
        var newName := Trim(updated.locationName.value);
        if Renames(current, newName) then
          if ExistsByLocationNameIgnoreCase(rows, newName) then Err(IllegalArgument(TakenNameMessage(newName)))
          else Ok(current.(locationName := Some(newName)))
        else Ok(current)
  }

  /** A blank new name, or one equal to the current name ignoring case,
      leaves the location as it is (it is still saved). */
  lemma UpdateKeepsNameUnlessRenamed(rows: map<int, Location>, name: Option<string>, updated: Location)
    requires LocationByName(rows, name).Ok? && updated.locationName.Some?
    requires var current := LocationByName(rows, name).value;
             var newName := Trim(updated.locationName.value);
             IsBlank(newName) || (current.locationName.Some? && EqualsIgnoreCase(newName, current.locationName.value))
    ensures UpdateLocationSpec(rows, name, updated) == Ok(LocationByName(rows, name).value)
  {
  }

  /** Renaming to a name another location has, ignoring case, fails. */
  lemma UpdateRejectsTakenName(rows: map<int, Location>, name: Option<string>, updated: Location, k: int)
    requires LocationByName(rows, name).Ok? && updated.locationName.Some?
    requires Renames(LocationByName(rows, name).value, Trim(updated.locationName.value))
    requires k in rows && rows[k].locationName.Some?
    requires EqualsIgnoreCase(rows[k].locationName.value, Trim(updated.locationName.value))
    ensures UpdateLocationSpec(rows, name, updated) == Err(IllegalArgument(TakenNameMessage(Trim(updated.locationName.value))))
  {
  }

  /** Saving the updated location keeps the names unique ignoring case. */
  lemma UpdateKeepsNamesUnique(rows: map<int, Location>, name: Option<string>, updated: Location)
    requires NamesUnique(rows) && LocationTableValid(rows) && UpdateLocationSpec(rows, name, updated).Ok?
    ensures NamesUnique(SaveLocation(rows, UpdateLocationSpec(rows, name, updated).value))
  {
    var current := LocationByName(rows, name).value;
    var saved := UpdateLocationSpec(rows, name, updated).value;
    var k :| k in rows && rows[k] == current;
    assert saved.locationId == k;
    var after := SaveLocation(rows, saved);
    if saved != current {
      var newName := Trim(updated.locationName.value);
      forall a, b | a in after && b in after && a != b && after[a].locationName.Some? && after[b].locationName.Some?
        ensures !EqualsIgnoreCase(after[a].locationName.value, after[b].locationName.value)
      {
        if a == k {
          assert !(b in rows && rows[b].locationName.Some? && EqualsIgnoreCase(rows[b].locationName.value, newName));
        } else if b == k {
          assert !(a in rows && rows[a].locationName.Some? && EqualsIgnoreCase(rows[a].locationName.value, newName));
        }
      }
    } else {
      assert after == rows;
    }
  }

  class LocationService {
    const locationRepository: LocationRepository

    constructor(locationRepository: LocationRepository)
      ensures this.locationRepository == locationRepository
    {
      this.locationRepository := locationRepository;
    }

    /** addLocation, saving the trimmed name (see the corrected definition). */
    method AddLocation(location: Location) returns (r: Result<Location>)
      modifies locationRepository
      ensures match AddLocationSpec(old(locationRepository.rows), location)
              case Ok(rows) => r.Ok? && locationRepository.rows == rows && r.value == rows[location.locationId]
              case Err(e) => r == Err(e) && locationRepository.rows == old(locationRepository.rows)
    {
      if location.locationName.None? {
        return Err(NullPointer);
      }
      var cleanName := Trim(location.locationName.value);
      if ExistsByLocationNameIgnoreCase(locationRepository.rows, cleanName) {
        return Err(IllegalArgument(DuplicateAddMessage(cleanName)));
      }
      var saved := location.(locationName := Some(cleanName));
      locationRepository.rows := locationRepository.rows[saved.locationId := saved];
      return Ok(saved);
    }

    /** getLocationByName. */
    method GetLocationByName(name: Option<string>) returns (r: Result<Location>)
      ensures r == LocationByName(locationRepository.rows, name)
    {
      var found := FindByLocationName(locationRepository.rows, name);
      if found.Err? {
        return Err(found.error);
      }
      if found.value.None? {
        return Err(Runtime(NotFoundMessage(name)));
      }
      return Ok(locationRepository.rows[found.value.value]);
    }

    /** updateLocation. */
    method UpdateLocation(name: Option<string>, updated: Location) returns (r: Result<Location>)
      modifies locationRepository
      ensures r == UpdateLocationSpec(old(locationRepository.rows), name, updated)
      ensures r.Ok? ==> locationRepository.rows == SaveLocation(old(locationRepository.rows), r.value)
      ensures r.Err? ==> locationRepository.rows == old(locationRepository.rows)
    {
      var location := GetLocationByName(name);
      if location.Err? {
        return Err(location.error);
      }
      var current := location.value;
      if updated.locationName.None? {
        return Err(NullPointer);
      }
      var newName := Trim(updated.locationName.value);
      if Renames(current, newName) {
        if ExistsByLocationNameIgnoreCase(locationRepository.rows, newName) {
          return Err(IllegalArgument(TakenNameMessage(newName)));
        }
        current := current.(locationName := Some(newName));
      }
      locationRepository.rows := SaveLocation(locationRepository.rows, current);
      return Ok(current);
    }

    /** deleteLocation: deleteById, which ignores an unknown id and refuses a
        null one. */
    method DeleteLocation(id: Option<int>) returns (r: Result<()>)
      modifies locationRepository
      ensures id.None? ==> r == Err(IllegalArgument("The given id must not be null"))
                           && locationRepository.rows == old(locationRepository.rows)
      ensures id.Some? ==> r == Ok(()) && locationRepository.rows == old(locationRepository.rows) - {id.value}
    {
      if id.None? {
        return Err(IllegalArgument("The given id must not be null"));
      }
      locationRepository.rows := locationRepository.rows - {id.value};
      return Ok(());
    }
  }
}
