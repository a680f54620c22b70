/** The ride-details screen: the driver form, its validation and the saved
    profile. */
module RideDetails {
  import opened Wrappers
  import opened Text
  import opened Platform

  /** The form's values. */
  datatype Driver = Driver(name: string, vehicle: string, contact: string)

  /** The profile shown under the form. One loaded from storage may lack
      the vehicle or the contact entry. */
  datatype StoredDriver = StoredDriver(name: string, vehicle: Option<string>, contact: Option<string>)

  const EmptyDriver := Driver("", "", "")

  /** The checks of a save, in the order they run. */
  datatype SaveFailure = NameMissing | VehicleMissing | ContactMissing {
    function Message(): string {
      match this
      case NameMissing => "Please enter a driver name"
      case VehicleMissing => "Please enter a driver vehicle"
      case ContactMissing => "Please enter a driver contact"
    }
  }

  const SavedAlert := Alert("Success", "Driver details saved!")
  const SaveFailedAlert := Alert("Error", "Failed to save driver details")

  // ---------------------------------------------------------------------
  // Validation

  /** The first field, in the order name, vehicle, contact, that trims to
      the empty string; none when every field has text. */
  function SaveError(d: Driver): Option<SaveFailure> {
    if IsBlank(d.name) then Some(NameMissing)
    else if IsBlank(d.vehicle) then Some(VehicleMissing)
    else if IsBlank(d.contact) then Some(ContactMissing)
    else None
  }

  predicate AllSpace(s: string) {
    forall i :: 0 <= i < |s| ==> IsSpace(s[i])
  }

  /** Each failure is reported exactly when its field is whitespace only and
      every earlier field is not; a name of whitespace alone decides the
      message whatever the other fields hold. */
  lemma SaveErrorSpec(d: Driver)
    ensures SaveError(d) == Some(NameMissing) <==> AllSpace(d.name)
    ensures SaveError(d) == Some(VehicleMissing) <==> !AllSpace(d.name) && AllSpace(d.vehicle)
    ensures SaveError(d) == Some(ContactMissing) <==>
      !AllSpace(d.name) && !AllSpace(d.vehicle) && AllSpace(d.contact)
    ensures SaveError(d) == None <==> !AllSpace(d.name) && !AllSpace(d.vehicle) && !AllSpace(d.contact)
  {
    BlankIff(d.name);
    BlankIff(d.vehicle);
    BlankIff(d.contact);
  }

  // ---------------------------------------------------------------------
  // Storage layout

  /** The three writes of a save, with the values as entered. */
  function DriverPairs(d: Driver): seq<(string, string)> {
    [(DriverNameKey, d.name), (DriverVehicleKey, d.vehicle), (DriverContactKey, d.contact)]
  }

  /** The profile the screen loads: present only when the stored name is a
      non-empty string. */
  function LoadedDriver(name: Option<string>, vehicle: Option<string>, contact: Option<string>): (r: Option<StoredDriver>)
    ensures r.Some? <==> name.Some? && name.value != ""
    ensures r.Some? ==> r.value == StoredDriver(name.value, vehicle, contact)
  {
    if name.Some? && name.value != "" then Some(StoredDriver(name.value, vehicle, contact)) else None
  }

  /** What a successful save puts in `storedDriver`. */
  function Saved(d: Driver): StoredDriver {
    StoredDriver(d.name, Some(d.vehicle), Some(d.contact))
  }

  /** A save writes the three entries as entered and leaves every other key
      alone, and loading the result gives back the driver just saved. */
  lemma SaveThenLoad(m: map<string, string>, d: Driver)
    ensures var m' := SetAll(m, DriverPairs(d));
      && m' == m[DriverNameKey := d.name][DriverVehicleKey := d.vehicle][DriverContactKey := d.contact]
      && (SaveError(d) == None ==>
            LoadedDriver(Some(m'[DriverNameKey]), Some(m'[DriverVehicleKey]), Some(m'[DriverContactKey]))
            == Some(Saved(d)))
  {
    SetAllThree(m, DriverNameKey, d.name, DriverVehicleKey, d.vehicle, DriverContactKey, d.contact);
    DriverKeysDistinct();
    if SaveError(d) == None {
      SaveErrorSpec(d);
    }
  }

  // ---------------------------------------------------------------------
  // Form fields

  /** `['name', 'vehicle', 'contact'][i]`, the key behind input `i`. */
  function FieldKey(i: nat): string
    requires i < 3
  {
    ["name", "vehicle", "contact"][i]
  }

  /** `driver[key]`, what input `i` shows. */
  function FieldValue(d: Driver, i: nat): string
    requires i < 3
  {
    match FieldKey(i)
    case "name" => d.name
    case "vehicle" => d.vehicle
    case _ => d.contact
  }

  /** `{...driver, [key]: text}`. */
  function UpdateField(d: Driver, i: nat, text: string): Driver
    requires i < 3
  {
    match FieldKey(i)
    case "name" => d.(name := text)
    case "vehicle" => d.(vehicle := text)
    case _ => d.(contact := text)
  }

  /** Editing input `i` sets the field it shows and no other. */
  lemma UpdateFieldSpec(d: Driver, i: nat, text: string)
    requires i < 3
    ensures FieldValue(UpdateField(d, i, text), i) == text
    ensures forall j: nat :: j < 3 && j != i ==> FieldValue(UpdateField(d, i, text), j) == FieldValue(d, j)
  {
    assert FieldKey(0) == "name" && FieldKey(1) == "vehicle" && FieldKey(2) == "contact";
  }

  /** Input 0 edits the name, 1 the vehicle, 2 the contact. */
  lemma FieldOrder(d: Driver, text: string)
    ensures UpdateField(d, 0, text) == Driver(text, d.vehicle, d.contact)
    ensures UpdateField(d, 1, text) == Driver(d.name, text, d.contact)
    ensures UpdateField(d, 2, text) == Driver(d.name, d.vehicle, text)
  {
    assert FieldKey(0) == "name" && FieldKey(1) == "vehicle" && FieldKey(2) == "contact";
  }

  // ---------------------------------------------------------------------
  // The screen

  class RideDetailsScreen {
    /** `driver`: the form. */
    var driver: Driver
    /** `storedDriver`: the saved profile shown under the form, if any. */
    var storedDriver: Option<StoredDriver>
    const storage: KeyValueStore

    constructor (storage: KeyValueStore)
      ensures this.storage == storage
      ensures driver == EmptyDriver && storedDriver == None
    {
      this.storage := storage;
      driver := EmptyDriver;
      storedDriver := None;
    }

    /** The mount effect: the three entries are read and the profile is
        set only when the name entry is a non-empty string. */
    method LoadStoredDriver()
      modifies this
      ensures var loaded := LoadedDriver(storage.GetItem(DriverNameKey), storage.GetItem(DriverVehicleKey),
                                         storage.GetItem(DriverContactKey));
        storedDriver == if loaded.Some? then loaded else old(storedDriver)
      ensures driver == old(driver)
    {
      var name := storage.GetItem(DriverNameKey);
      var vehicle := storage.GetItem(DriverVehicleKey);
      var contact := storage.GetItem(DriverContactKey);
      var loaded := LoadedDriver(name, vehicle, contact);
      if loaded.Some? {
        storedDriver := loaded;
      }
    }

    /** `onChangeText` of input `i`. */
    method EditField(i: nat, text: string)
      requires i < 3
      modifies this
      ensures driver == UpdateField(old(driver), i, text)
      ensures storedDriver == old(storedDriver)
    {
      driver := UpdateField(driver, i, text);
    }

    /** `saveDriver`: the first failing check is reported and nothing is
        written; otherwise the three entries are written as entered and the
        profile becomes the entered driver, unless the write fails. */
    method SaveDriver(writeSucceeds: bool) returns (alert: Alert)
      modifies this, storage
      ensures driver == old(driver)
      ensures SaveError(driver).Some? ==>
        && alert == Alert("Error", SaveError(driver).value.Message())
        && storage.entries == old(storage.entries)
        && storedDriver == old(storedDriver)
      ensures SaveError(driver).None? && writeSucceeds ==>
        && alert == SavedAlert
        && storage.entries == SetAll(old(storage.entries), DriverPairs(driver))
        && storedDriver == Some(Saved(driver))
      ensures SaveError(driver).None? && !writeSucceeds ==>
        && alert == SaveFailedAlert
        && storage.entries == old(storage.entries)
        && storedDriver == old(storedDriver)
    {
      var error := SaveError(driver);
      if error.Some? {
        return Alert("Error", error.value.Message());
      }
      if !writeSucceeds {
        return SaveFailedAlert;
      }
      storage.MultiSet(DriverPairs(driver));
      storedDriver := Some(Saved(driver));
      alert := SavedAlert;
    }
  }
}
