/** The list rules of the contacts screen: the repair applied to the stored
    selection, the selection toggle and the name search. A contact's phone
    string is its identity. */
module ContactLists {
  import opened Seqs
  import opened Text

  datatype Contact = Contact(name: string, phone: string, photoUri: string)

  /** `list.some(c => c.phone === phone)`. */
  predicate HasPhone(list: seq<Contact>, phone: string) {
    exists i :: 0 <= i < |list| && list[i].phone == phone
  }

  /** No two elements share a phone. */
  predicate UniqueByPhone(list: seq<Contact>) {
    forall i, j :: 0 <= i < j < |list| ==> list[i].phone != list[j].phone
  }

  /** `list.findIndex(c => c.phone === phone)`: the first index holding
      `phone`, or -1 when none does. */
  function FindPhone(list: seq<Contact>, phone: string): (k: int)
    ensures -1 <= k < |list|
    ensures 0 <= k ==> list[k].phone == phone
    ensures forall j :: 0 <= j < |list| && (k == -1 || j < k) ==> list[j].phone != phone
  {
    if list == [] then -1
    else if list[0].phone == phone then 0
    else
      var k := FindPhone(list[1..], phone);
      if k == -1 then -1 else k + 1
  }

  // ---------------------------------------------------------------------
  // Repair of the stored selection

  /** `data.filter((c, index, self) => index === self.findIndex(...))`,
      continued from position `i`. */
  function KeepFirsts(data: seq<Contact>, i: nat): seq<Contact>
    requires i <= |data|
    decreases |data| - i
  {
    if i == |data| then []
    else (if FindPhone(data, data[i].phone) == i then [data[i]] else []) + KeepFirsts(data, i + 1)
  }

  /** The stored selection with every contact after the first one of its
      phone removed. */
  function DedupByPhone(data: seq<Contact>): seq<Contact> {
    KeepFirsts(data, 0)
  }

  lemma {:induction false} KeepFirstsFacts(data: seq<Contact>, i: nat)
    requires i <= |data|
    ensures IsSubseq(KeepFirsts(data, i), data[i..])
    ensures forall x :: x in KeepFirsts(data, i) ==>
      i <= FindPhone(data, x.phone) && data[FindPhone(data, x.phone)] == x
    ensures UniqueByPhone(KeepFirsts(data, i))
    ensures forall q :: i <= q < |data| && FindPhone(data, data[q].phone) == q ==>
      data[q] in KeepFirsts(data, i)
    decreases |data| - i
  {
    if i < |data| {
      KeepFirstsFacts(data, i + 1);
      var rest := KeepFirsts(data, i + 1);
      var r := KeepFirsts(data, i);
      assert data[i..][1..] == data[i + 1..];
      if FindPhone(data, data[i].phone) == i {
        assert r == [data[i]] + rest;
        assert r[1..] == rest;
        forall a, b | 0 <= a < b < |r| ensures r[a].phone != r[b].phone {
          if a == 0 {
            assert r[b] in rest;
          } else {
            assert r[a] == rest[a - 1] && r[b] == rest[b - 1];
          }
        }
      } else {
        assert r == rest;
      }
    }
  }

  /** The repaired selection holds exactly one contact per phone of the
      stored list, namely the first contact stored with that phone, in the
      stored order. */
  lemma DedupByPhoneSpec(data: seq<Contact>)
    ensures UniqueByPhone(DedupByPhone(data))
    ensures IsSubseq(DedupByPhone(data), data)
    ensures forall x :: x in DedupByPhone(data) ==>
      0 <= FindPhone(data, x.phone) && data[FindPhone(data, x.phone)] == x
    ensures forall p :: HasPhone(DedupByPhone(data), p) <==> HasPhone(data, p)
  {
    var r := DedupByPhone(data);
    KeepFirstsFacts(data, 0);
    assert data[0..] == data;
    SubseqBounds(r, data);
    forall p | HasPhone(data, p) ensures HasPhone(r, p) {
      var q := FindPhone(data, p);
      assert data[q] in r;
      var k :| 0 <= k < |r| && r[k] == data[q];
    }
    forall p | HasPhone(r, p) ensures HasPhone(data, p) {
      var k :| 0 <= k < |r| && r[k].phone == p;
      assert r[k] in data;
    }
  }

  lemma {:induction false} KeepFirstsUnique(data: seq<Contact>, i: nat)
    requires i <= |data| && UniqueByPhone(data)
    ensures KeepFirsts(data, i) == data[i..]
    decreases |data| - i
  {
    if i < |data| {
      KeepFirstsUnique(data, i + 1);
      assert FindPhone(data, data[i].phone) == i;
      assert data[i..] == [data[i]] + data[i + 1..];
    }
  }

  /** On a selection that is already unique by phone the repair changes
      nothing. */
  lemma DedupOfUnique(data: seq<Contact>)
    requires UniqueByPhone(data)
    ensures DedupByPhone(data) == data
  {
    KeepFirstsUnique(data, 0);
  }

  lemma DedupIdempotent(data: seq<Contact>)
    ensures DedupByPhone(DedupByPhone(data)) == DedupByPhone(data)
  {
    DedupByPhoneSpec(data);
    DedupOfUnique(DedupByPhone(data));
  }

  // ---------------------------------------------------------------------
  // Toggle

  /** `list.filter(item => item.phone !== phone)`. */
  function RemovePhone(list: seq<Contact>, phone: string): seq<Contact> {
    Filter(list, (c: Contact) => c.phone != phone)
  }

  /** `toggleSelect`: remove every contact with this phone if there is one,
      otherwise append the contact. */
  function Toggle(prev: seq<Contact>, contact: Contact): seq<Contact> {
    if HasPhone(prev, contact.phone) then RemovePhone(prev, contact.phone) else prev + [contact]
  }

  /** Removing a phone keeps every other contact, with its fields, as often
      as before and in the same relative order, and drops that phone. */
  lemma RemovePhoneSpec(list: seq<Contact>, phone: string)
    ensures IsSubseq(RemovePhone(list, phone), list)
    ensures !HasPhone(RemovePhone(list, phone), phone)
    ensures forall x :: multiset(RemovePhone(list, phone))[x] ==
                        (if x.phone == phone then 0 else multiset(list)[x])
  {
    FilterSpec(list, (c: Contact) => c.phone != phone);
  }

  /** Toggling a selected phone takes it out, leaves the rest as it was,
      and shortens the list. */
  lemma TogglePresent(prev: seq<Contact>, contact: Contact)
    requires HasPhone(prev, contact.phone)
    ensures !HasPhone(Toggle(prev, contact), contact.phone)
    ensures IsSubseq(Toggle(prev, contact), prev)
    ensures forall x :: multiset(Toggle(prev, contact))[x] ==
                        (if x.phone == contact.phone then 0 else multiset(prev)[x])
    ensures |Toggle(prev, contact)| < |prev|
  {
    RemovePhoneSpec(prev, contact.phone);
    var r := Toggle(prev, contact);
    var i :| 0 <= i < |prev| && prev[i].phone == contact.phone;
    assert prev[i] in multiset(prev);
    assert multiset(r)[prev[i]] == 0;
    SubseqBounds(r, prev);
    if |r| == |prev| {
      SubseqSameLength(r, prev);
    }
  }

  lemma {:induction false} SubseqSameLength<T>(r: seq<T>, s: seq<T>)
    requires IsSubseq(r, s) && |r| == |s|
    ensures r == s
    decreases |s|
  {
    if s != [] {
      if r != [] && r[0] == s[0] && IsSubseq(r[1..], s[1..]) {
        SubseqSameLength(r[1..], s[1..]);
        assert r == [r[0]] + r[1..];
      } else {
        SubseqBounds(r, s[1..]);
      }
    }
  }

  /** A subsequence of a list unique by phone is unique by phone. */
  lemma {:induction false} SubseqUnique(r: seq<Contact>, s: seq<Contact>)
    requires IsSubseq(r, s) && UniqueByPhone(s)
    ensures UniqueByPhone(r)
    decreases |s|
  {
    if s != [] {
      assert UniqueByPhone(s[1..]) by {
        forall a, b | 0 <= a < b < |s[1..]| ensures s[1..][a].phone != s[1..][b].phone {
          assert s[1..][a] == s[a + 1] && s[1..][b] == s[b + 1];
        }
      }
      if r != [] && r[0] == s[0] && IsSubseq(r[1..], s[1..]) {
        SubseqUnique(r[1..], s[1..]);
        SubseqBounds(r[1..], s[1..]);
        forall a, b | 0 <= a < b < |r| ensures r[a].phone != r[b].phone {
          if a == 0 {
            assert r[b] in r[1..];
            var k :| 0 <= k < |s[1..]| && s[1..][k] == r[b];
            assert s[k + 1] == r[b];
          } else {
            assert r[a] == r[1..][a - 1] && r[b] == r[1..][b - 1];
          }
        }
      } else {
        SubseqUnique(r, s[1..]);
      }
    }
  }

  /** Toggling keeps the selection unique by phone. */
  lemma ToggleKeepsUnique(prev: seq<Contact>, contact: Contact)
    requires UniqueByPhone(prev)
    ensures UniqueByPhone(Toggle(prev, contact))
  {
    if HasPhone(prev, contact.phone) {
      RemovePhoneSpec(prev, contact.phone);
      SubseqUnique(RemovePhone(prev, contact.phone), prev);
    }
  }

  /** Toggling an unselected phone twice gives the original list back. */
  lemma ToggleTwiceAbsent(prev: seq<Contact>, contact: Contact)
    requires !HasPhone(prev, contact.phone)
    ensures Toggle(prev, contact) == prev + [contact]
    ensures Toggle(Toggle(prev, contact), contact) == prev
  {
    var p := contact.phone;
    var keep := (c: Contact) => c.phone != p;
    assert HasPhone(prev + [contact], p) by {
      assert (prev + [contact])[|prev|].phone == p;
    }
    FilterAppend(prev, [contact], keep);
    FilterAll(prev, keep);
    assert Filter([contact], keep) == [];
  }

  /** Toggling a selected phone twice drops every entry with that phone and
      then appends the contact, so the original list comes back only when
      the contact was its one entry with that phone and stood last. */
  lemma ToggleTwicePresent(prev: seq<Contact>, contact: Contact)
    requires HasPhone(prev, contact.phone)
    ensures Toggle(Toggle(prev, contact), contact) == RemovePhone(prev, contact.phone) + [contact]
  {
    RemovePhoneSpec(prev, contact.phone);
  }

  /** A toggle flips whether the contact's phone is checked and leaves the
      check of every other phone as it was. */
  lemma ToggleFlipsSelection(prev: seq<Contact>, contact: Contact)
    ensures HasPhone(Toggle(prev, contact), contact.phone) == !HasPhone(prev, contact.phone)
    ensures forall p :: p != contact.phone ==> (HasPhone(Toggle(prev, contact), p) <==> HasPhone(prev, p))
  {
    var r := Toggle(prev, contact);
    if HasPhone(prev, contact.phone) {
      TogglePresent(prev, contact);
      SubseqBounds(r, prev);
      forall p | p != contact.phone && HasPhone(prev, p) ensures HasPhone(r, p) {
        var i :| 0 <= i < |prev| && prev[i].phone == p;
        assert prev[i] in multiset(prev);
        assert prev[i] in multiset(r);
        var k :| 0 <= k < |r| && r[k] == prev[i];
      }
      forall p | HasPhone(r, p) ensures HasPhone(prev, p) {
        var k :| 0 <= k < |r| && r[k].phone == p;
        assert r[k] in prev;
      }
    } else {
      ToggleTwiceAbsent(prev, contact);
      assert r[|prev|] == contact;
      forall p | HasPhone(prev, p) ensures HasPhone(r, p) {
        var i :| 0 <= i < |prev| && prev[i].phone == p;
        assert r[i] == prev[i];
      }
      forall p | p != contact.phone && HasPhone(r, p) ensures HasPhone(prev, p) {
        var k :| 0 <= k < |r| && r[k].phone == p;
        assert k < |prev| && r[k] == prev[k];
      }
    }
  }

  /** A two-element selection toggled twice on its first contact comes back
      reordered. */
  lemma ToggleTwiceReorders()
    ensures var a, b := Contact("A", "1", ""), Contact("B", "2", "");
      Toggle(Toggle([a, b], a), a) == [b, a] != [a, b]
  {
    var a, b := Contact("A", "1", ""), Contact("B", "2", "");
    assert [a, b][0].phone == "1";
    ToggleTwicePresent([a, b], a);
    var keep := (c: Contact) => c.phone != "1";
    assert [a, b][1..] == [b] && [b][1..] == [];
    assert Filter([b], keep) == [b] + Filter([], keep);
    assert Filter([a, b], keep) == Filter([b], keep);
  }

  // ---------------------------------------------------------------------
  // Name search

  /** `c.name.toLowerCase().includes(query.toLowerCase())`. */
  predicate NameMatches(query: string, c: Contact) {
    Includes(ToLower(c.name), ToLower(query))
  }

  /** The search applied to the selected list and to the device list. */
  function FilterByName(list: seq<Contact>, query: string): seq<Contact> {
    Filter(list, (c: Contact) => NameMatches(query, c))
  }

  /** The search keeps, in order and as often as they occur, exactly the
      contacts whose lower-cased name contains the lower-cased query. */
  lemma FilterByNameSpec(list: seq<Contact>, query: string)
    ensures IsSubseq(FilterByName(list, query), list)
    ensures forall i :: 0 <= i < |FilterByName(list, query)| ==> NameMatches(query, FilterByName(list, query)[i])
    ensures forall x :: multiset(FilterByName(list, query))[x] ==
                        (if NameMatches(query, x) then multiset(list)[x] else 0)
  {
    FilterSpec(list, (c: Contact) => NameMatches(query, c));
  }

  /** An empty query shows the whole list. */
  lemma FilterByNameEmpty(list: seq<Contact>)
    ensures FilterByName(list, "") == list
  {
    forall i | 0 <= i < |list| ensures NameMatches("", list[i]) {
      IncludesEmpty(ToLower(list[i].name));
    }
    FilterAll(list, (c: Contact) => NameMatches("", c));
  }

  lemma LowerExamples()
    ensures ToLower("al") == "al"
    ensures ToLower("Alice") == "alice"
    ensures ToLower("Bob") == "bob"
    ensures ToLower("Salim") == "salim"
  {
  }

  /** Searching "al" among Alice, Bob and Salim shows Alice and Salim. */
  lemma FilterByNameExample()
    ensures var alice, bob, salim := Contact("Alice", "1", ""), Contact("Bob", "2", ""), Contact("Salim", "3", "");
      FilterByName([alice, bob, salim], "al") == [alice, salim]
  {
    var alice, bob, salim := Contact("Alice", "1", ""), Contact("Bob", "2", ""), Contact("Salim", "3", "");
    LowerExamples();
    assert NameMatches("al", alice);
    assert !NameMatches("al", bob);
    assert NameMatches("al", salim) by {
      assert Includes("salim"[1..], "al");
    }
    var keep := (c: Contact) => NameMatches("al", c);
    var l := [alice, bob, salim];
    assert l[1..] == [bob, salim] && [bob, salim][1..] == [salim] && [salim][1..] == [];
    assert Filter([salim], keep) == [salim];
    assert Filter([bob, salim], keep) == [salim];
    assert Filter(l, keep) == [alice] + [salim];
  }
}
