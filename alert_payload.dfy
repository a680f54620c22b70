/** What the contacts screen sends: the recipient numbers, the alert text
    and the `sms:` URL handed to the messaging app. */
module AlertPayload {
  import opened Wrappers
  import opened Seqs
  import opened Text
  import opened ContactLists

  // ---------------------------------------------------------------------
  // Recipients

  /** `selected.map(c => c.phone.replace(/\D/g, ''))`. */
  function NormalizedPhones(selected: seq<Contact>): seq<string> {
    seq(|selected|, i requires 0 <= i < |selected| => StripNonDigits(selected[i].phone))
  }

  predicate NonEmpty(n: string) {
    |n| > 0
  }

  /** `...filter(n => n.length > 0)` over the normalised numbers. */
  function Recipients(selected: seq<Contact>): seq<string> {
    Filter(NormalizedPhones(selected), NonEmpty)
  }

  /** Every recipient is a non-empty digit string; recipients follow the
      selection order; no more recipients than selected contacts;
      equal numbers are kept as often as they occur. */
  lemma RecipientsSpec(selected: seq<Contact>)
    ensures forall i :: 0 <= i < |Recipients(selected)| ==>
      Recipients(selected)[i] != "" && AllDigits(Recipients(selected)[i])
    ensures IsSubseq(Recipients(selected), NormalizedPhones(selected))
    ensures |Recipients(selected)| <= |selected|
    ensures forall n :: n != "" ==> multiset(Recipients(selected))[n] == multiset(NormalizedPhones(selected))[n]
  {
    var ns := NormalizedPhones(selected);
    FilterSpec(ns, NonEmpty);
    var r := Recipients(selected);
    forall i | 0 <= i < |r| ensures AllDigits(r[i]) {
      assert r[i] in ns by {
        SubseqBounds(r, ns);
      }
    }
  }

  /** There are no recipients exactly when every selected phone holds no
      digit at all. */
  lemma RecipientsEmptyIff(selected: seq<Contact>)
    ensures Recipients(selected) == [] <==> forall i :: 0 <= i < |selected| ==> StripNonDigits(selected[i].phone) == ""
  {
    var ns := NormalizedPhones(selected);
    var r := Recipients(selected);
    FilterSpec(ns, NonEmpty);
    assert |ns| == |selected|;
    assert forall i :: 0 <= i < |selected| ==> ns[i] == StripNonDigits(selected[i].phone);
    forall i | 0 <= i < |ns| && ns[i] != "" ensures ns[i] in r {
      assert ns[i] in multiset(ns);
      assert multiset(r)[ns[i]] > 0;
    }
    if r != [] {
      assert NonEmpty(r[0]);
      assert r[0] in multiset(r);
      assert r[0] in multiset(ns);
      var i :| 0 <= i < |ns| && ns[i] == r[0];
    }
  }

  /** Two contacts whose phones are formatted differently but hold the same
      digits give the same number twice: recipients are not deduplicated. */
  lemma DuplicateNumbersKept(a: Contact, b: Contact)
    requires StripNonDigits(a.phone) == StripNonDigits(b.phone) != ""
    ensures Recipients([a, b]) == [StripNonDigits(a.phone), StripNonDigits(a.phone)]
  {
    var n := StripNonDigits(a.phone);
    var ns := NormalizedPhones([a, b]);
    assert ns == [n, n];
    assert ns[1..] == [n] && ns[1..][1..] == [];
    assert Filter([n], NonEmpty) == [n] + Filter([], NonEmpty);
  }

  /** Phones without digits give no recipient. */
  lemma NoDigitsNoRecipients()
    ensures Recipients([Contact("A", "abc", ""), Contact("B", "", "")]) == []
  {
    RecipientsEmptyIff([Contact("A", "abc", ""), Contact("B", "", "")]);
  }

  // ---------------------------------------------------------------------
  // Message

  /** A value as a template literal prints it: a missing value prints as
      "null". */
  function Show(v: Option<string>): string {
    match v
    case Some(s) => s
    case None => "null"
  }

  const AlertHead := "\U{1F6A8} Emergency Alert! Driver: "
  const ContactLabel := ", Contact: "
  const VehicleLabel := ", Vehicle No: "
  const LocationLabel := ". My Current Location: "
  const MapBase := "https://maps.google.com/?q="

  /** The map link for a position. */
  function MapLink(latitude: string, longitude: string): string {
    MapBase + latitude + "," + longitude
  }

  /** The alert text with the driver's name, contact and vehicle number and
      the map link substituted verbatim. */
  function AlertMessage(name: Option<string>, contact: Option<string>, vehicle: Option<string>,
                        latitude: string, longitude: string): string
  {
    AlertHead + Show(name) + ContactLabel + Show(contact) + VehicleLabel + Show(vehicle)
      + LocationLabel + MapLink(latitude, longitude)
  }

  /** The fixed text in the template, in characters. */
  const TemplateLength := |AlertHead| + |ContactLabel| + |VehicleLabel| + |LocationLabel| + |MapBase| + 1

  /** Each field sits verbatim at its place in the message: the head,
      the name, the contact label and the contact open the message; the
      vehicle label, the vehicle and the location label follow the contact;
      the map link closes the message; and nothing but the fixed text is
      added. */
  lemma AlertMessageFields(name: Option<string>, contact: Option<string>, vehicle: Option<string>,
                           latitude: string, longitude: string)
    ensures var m := AlertMessage(name, contact, vehicle, latitude, longitude);
      var o := |AlertHead + Show(name) + ContactLabel + Show(contact)|;
      var middle := VehicleLabel + Show(vehicle) + LocationLabel;
      && AlertHead + Show(name) + ContactLabel + Show(contact) <= m
      && o + |middle| <= |m| && m[o..o + |middle|] == middle
      && m[|m| - |MapLink(latitude, longitude)|..] == MapLink(latitude, longitude)
      && |m| == TemplateLength + |Show(name)| + |Show(contact)| + |Show(vehicle)| + |latitude| + |longitude|
  {
    var head := AlertHead + Show(name) + ContactLabel + Show(contact);
    var middle := VehicleLabel + Show(vehicle) + LocationLabel;
    var m := AlertMessage(name, contact, vehicle, latitude, longitude);
    assert m == head + middle + MapLink(latitude, longitude);
    assert m[|head|..|head| + |middle|] == middle;
  }

  // ---------------------------------------------------------------------
  // SMS URL

  /** `sms:${numbers.join(',')}?body=${encode(message)}`; `encode` stands
      for `encodeURIComponent`. */
  function SmsUrl(numbers: seq<string>, message: string, encode: string -> string): string {
    "sms:" + Join(numbers, ',') + "?body=" + encode(message)
  }

  /** Joining digit strings with commas gives only digits and commas. */
  lemma {:induction false} JoinDigits(parts: seq<string>)
    requires forall i :: 0 <= i < |parts| ==> AllDigits(parts[i])
    ensures forall k :: 0 <= k < |Join(parts, ',')| ==> IsDigit(Join(parts, ',')[k]) || Join(parts, ',')[k] == ','
    decreases |parts|
  {
    if |parts| > 1 {
      JoinDigits(parts[1..]);
      var j := Join(parts, ',');
      var t := Join(parts[1..], ',');
      assert j == parts[0] + [','] + t;
      forall k | 0 <= k < |j| ensures IsDigit(j[k]) || j[k] == ',' {
        if k < |parts[0]| {
          assert j[k] == parts[0][k];
        } else if k > |parts[0]| {
          assert j[k] == t[k - |parts[0]| - 1];
        }
      }
    }
  }

  /** Reading the URL back: after the scheme, the text up to the first `?`
      split at commas is the recipient list, and what follows the `?` is
      the encoded message as the `body` parameter. */
  lemma SmsUrlParts(numbers: seq<string>, message: string, encode: string -> string)
    requires numbers != []
    requires forall i :: 0 <= i < |numbers| ==> AllDigits(numbers[i])
    ensures var url := SmsUrl(numbers, message, encode);
      && url[..4] == "sms:"
      && Split(BeforeFirst(url[4..], '?'), ',') == numbers
      && AfterFirst(url[4..], '?') == "body=" + encode(message)
  {
    var url := SmsUrl(numbers, message, encode);
    var j := Join(numbers, ',');
    JoinDigits(numbers);
    assert url[4..] == j + ['?'] + ("body=" + encode(message));
    assert '?' !in j by {
      forall k | 0 <= k < |j| ensures j[k] != '?' {
      }
    }
    CutAtFirst(j, '?', "body=" + encode(message));
    forall i | 0 <= i < |numbers| ensures ',' !in numbers[i] {
      forall k | 0 <= k < |numbers[i]| ensures numbers[i][k] != ',' {
        assert IsDigit(numbers[i][k]);
      }
    }
    SplitJoin(numbers, ',');
  }
}
