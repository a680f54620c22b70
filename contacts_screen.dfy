/** The contacts screen's state and its procedures: loading the stored
    selection, fetching the device contacts, toggling, the two searched
    lists and sending the alert. */
module ContactsScreen {
  import opened Wrappers
  import opened Platform
  import opened ContactLists
  import opened AlertPayload
  import opened Text

  /** The options of the position request. */
  datatype PositionOptions = PositionOptions(enableHighAccuracy: bool, timeout: nat, maximumAge: nat)

  const LocationRequest := PositionOptions(true, 20000, 1000)

  /** What the position request reports: coordinates, printed as the
      template prints them, or an error message. */
  datatype PositionFix = Position(latitude: string, longitude: string) | PositionError(message: string)

  /** The observable steps of `sendLocation`, in order. */
  datatype Effect =
    | ShowContactsModal
    | ReadItem(key: string)
    | RequestPosition(options: PositionOptions)
    | ShowAlert(alert: Alert)
    | OpenUrl(url: string)

  const PermissionAlert := Alert("Permission Required", "Enable contacts or location access in settings.")
  const NoNumbersAlert := Alert("Error", "No valid phone numbers found!")
  const NoSmsAlert := Alert("Error", "SMS app not available.")

  /** The steps of a send with a non-empty selection that precede the
      position callback: three profile reads, then the position request. */
  const SendPrologue := [ReadItem(DriverNameKey), ReadItem(DriverVehicleKey), ReadItem(DriverContactKey),
                         RequestPosition(LocationRequest)]

  class SelectionStore {
    /** `selectedContacts`: the emergency contacts. */
    var selected: seq<Contact>
    /** `contacts`: the device contacts of this session. */
    var contacts: seq<Contact>

    ghost predicate Valid()
      reads this
    {
      UniqueByPhone(selected)
    }

    constructor ()
      ensures Valid() && selected == [] && contacts == []
    {
      selected, contacts := [], [];
    }

    /** Loading the stored selection: when something is stored, it replaces
        the selection once repaired; otherwise the selection stays. */
    method LoadSelected(stored: Option<seq<Contact>>)
      requires Valid()
      modifies this
      ensures Valid()
      ensures selected == if stored.Some? then DedupByPhone(stored.value) else old(selected)
      ensures contacts == old(contacts)
    {
      if stored.Some? {
        DedupByPhoneSpec(stored.value);
        selected := DedupByPhone(stored.value);
      }
    }

    /** `fetchContacts`: both permissions are asked for; if either is
        refused the permission dialog is shown, otherwise a successful fetch
        replaces the device contacts and a failed one leaves them. */
    method FetchContacts(hasLocationPermission: bool, hasContactsPermission: bool,
                         fetched: Option<seq<Contact>>) returns (alert: Option<Alert>)
      requires Valid()
      modifies this
      ensures Valid()
      ensures alert == if hasLocationPermission && hasContactsPermission then None else Some(PermissionAlert)
      ensures contacts == if hasLocationPermission && hasContactsPermission && fetched.Some?
                          then fetched.value else old(contacts)
      ensures selected == old(selected)
    {
      if !hasContactsPermission || !hasLocationPermission {
        return Some(PermissionAlert);
      }
      alert := None;
      if fetched.Some? {
        contacts := fetched.value;
      }
    }

    /** `toggleSelect`. */
    method ToggleSelect(contact: Contact)
      requires Valid()
      modifies this
      ensures Valid()
      ensures selected == Toggle(old(selected), contact)
      ensures IsSelected(contact) == !old(IsSelected(contact))
      ensures forall item: Contact :: item.phone != contact.phone ==> IsSelected(item) == old(IsSelected(item))
      ensures contacts == old(contacts)
    {
      ToggleKeepsUnique(selected, contact);
      ToggleFlipsSelection(selected, contact);
      selected := Toggle(selected, contact);
    }

    /** Whether a row is shown as checked. */
    function IsSelected(item: Contact): (b: bool)
      reads this
      ensures b <==> exists i :: 0 <= i < |selected| && selected[i].phone == item.phone
    {
      HasPhone(selected, item.phone)
    }

    /** The main list: the selected contacts matching the search. */
    method ShownSelected(query: string) returns (shown: seq<Contact>)
      ensures shown == FilterByName(selected, query)
    {
      shown := FilterByName(selected, query);
    }

    /** The picker list: the device contacts matching the search. */
    method ShownContacts(query: string) returns (shown: seq<Contact>)
      ensures shown == FilterByName(contacts, query)
    {
      shown := FilterByName(contacts, query);
    }

    /** `sendLocation`, as the steps it takes. An empty selection shows the
        picker and does nothing else. Otherwise the three driver entries are
        read and the position is requested; a position error is shown as
        it is; with a position, the message is composed, and either the
        missing-numbers dialog is shown or the `sms:` URL is opened, followed
        by a dialog when no messaging app takes it. */
    method SendLocation(storage: KeyValueStore, fix: PositionFix, encode: string -> string,
                        smsAvailable: bool) returns (trace: seq<Effect>)
      ensures selected == [] ==> trace == [ShowContactsModal]
      ensures selected != [] ==> |trace| > 4 && trace[..4] == SendPrologue
      ensures selected != [] && fix.PositionError? ==>
        trace == SendPrologue + [ShowAlert(Alert("Error", fix.message))]
      ensures selected != [] && fix.Position? && Recipients(selected) == [] ==>
        trace == SendPrologue + [ShowAlert(NoNumbersAlert)]
      ensures selected != [] && fix.Position? && Recipients(selected) != [] ==>
        var message := AlertMessage(storage.GetItem(DriverNameKey), storage.GetItem(DriverContactKey),
                                    storage.GetItem(DriverVehicleKey), fix.latitude, fix.longitude);
        trace == SendPrologue + [OpenUrl(SmsUrl(Recipients(selected), message, encode))]
                 + (if smsAvailable then [] else [ShowAlert(NoSmsAlert)])
      ensures forall k :: 0 <= k < |trace| && trace[k].OpenUrl? ==>
        selected != [] && fix.Position? && Recipients(selected) != []
    {
      if |selected| == 0 {
        trace := [ShowContactsModal];
        return;
      }
      var name := storage.GetItem(DriverNameKey);
      trace := [ReadItem(DriverNameKey)];
      var vehicle := storage.GetItem(DriverVehicleKey);
      trace := trace + [ReadItem(DriverVehicleKey)];
      var driverContact := storage.GetItem(DriverContactKey);
      trace := trace + [ReadItem(DriverContactKey)];
      trace := trace + [RequestPosition(LocationRequest)];
      assert trace == SendPrologue;
      match fix {
        case PositionError(message) =>
          trace := trace + [ShowAlert(Alert("Error", message))];
        case Position(latitude, longitude) =>
          var message := AlertMessage(name, driverContact, vehicle, latitude, longitude);
          var numbers := Recipients(selected);
          if |numbers| == 0 {
            trace := trace + [ShowAlert(NoNumbersAlert)];
            return;
          }
          var url := SmsUrl(numbers, message, encode);
          trace := trace + [OpenUrl(url)];
          if !smsAvailable {
            trace := trace + [ShowAlert(NoSmsAlert)];
          }
      }
    }
  }

  /** A URL the send opens names exactly the recipients, in selection order,
      and carries the encoded message. */
  lemma SentUrlNamesRecipients(selected: seq<Contact>, message: string, encode: string -> string)
    requires Recipients(selected) != []
    ensures var url := SmsUrl(Recipients(selected), message, encode);
      && Split(BeforeFirst(url[4..], '?'), ',') == Recipients(selected)
      && AfterFirst(url[4..], '?') == "body=" + encode(message)
  {
    RecipientsSpec(selected);
    SmsUrlParts(Recipients(selected), message, encode);
  }
}
