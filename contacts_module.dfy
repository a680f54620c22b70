/** The native module's contact query: the rows of the phone table, with
    every row after the first one of its name-and-number key dropped. */
module ContactsModule {
  import opened Wrappers
  import opened Seqs

  /** A cursor row; a NULL column reads as no string. */
  datatype Row = Row(name: Option<string>, phone: Option<string>)

  /** A string as Java's `+` prints it: a null reference prints as "null". */
  function JavaString(s: Option<string>): string {
    match s
    case Some(v) => v
    case None => "null"
  }

  /** `name + phone`, the key of the duplicate check. */
  function Key(row: Row): string {
    JavaString(row.name) + JavaString(row.phone)
  }

  /** The keys occurring in a list of rows. */
  function KeySet(rows: seq<Row>): set<string> {
    set i | 0 <= i < |rows| :: Key(rows[i])
  }

  predicate KeysDistinct(rows: seq<Row>) {
    forall i, j :: 0 <= i < j < |rows| ==> Key(rows[i]) != Key(rows[j])
  }

  /** The first index of a row with this key, or -1. */
  function FindKey(rows: seq<Row>, key: string): (k: int)
    ensures -1 <= k < |rows|
    ensures 0 <= k ==> Key(rows[k]) == key
    ensures forall j :: 0 <= j < |rows| && (k == -1 || j < k) ==> Key(rows[j]) != key
  {
    if rows == [] then -1
    else if Key(rows[0]) == key then 0
    else
      var k := FindKey(rows[1..], key);
      if k == -1 then -1 else k + 1
  }

  /** The rows the loop appends, given the keys `seen` before them. */
  function DedupRowsFrom(rows: seq<Row>, seen: set<string>): seq<Row>
    decreases |rows|
  {
    if rows == [] then []
    else if Key(rows[0]) in seen then DedupRowsFrom(rows[1..], seen)
    else [rows[0]] + DedupRowsFrom(rows[1..], seen + {Key(rows[0])})
  }

  /** The rows `getContacts` resolves with. */
  function DedupRows(rows: seq<Row>): seq<Row> {
    DedupRowsFrom(rows, {})
  }

  /** The `while (cursor.moveToNext())` loop: a row is pushed onto the
      output list when its key is not yet in the set, and its key is then
      added to the set. */
  method GetContacts(rows: seq<Row>) returns (contactsArray: seq<Row>)
    ensures contactsArray == DedupRows(rows)
  {
    contactsArray := [];
    var uniqueContacts: set<string> := {};
    var i := 0;
    while i < |rows|
      invariant 0 <= i <= |rows|
      invariant contactsArray + DedupRowsFrom(rows[i..], uniqueContacts) == DedupRows(rows)
    {
      var contactKey := Key(rows[i]);
      DedupRowsStep(contactsArray, rows, i, uniqueContacts);
      if contactKey !in uniqueContacts {
        uniqueContacts := uniqueContacts + {contactKey};
        contactsArray := contactsArray + [rows[i]];
      }
      i := i + 1;
    }
    assert rows[i..] == [];
  }

  /** One step of the loop, on the specification side: what has been
      pushed plus what the remaining rows contribute stays the whole result. */
  lemma DedupRowsStep(pushed: seq<Row>, rows: seq<Row>, i: nat, seen: set<string>)
    requires i < |rows|
    requires pushed + DedupRowsFrom(rows[i..], seen) == DedupRows(rows)
    ensures Key(rows[i]) in seen ==> pushed + DedupRowsFrom(rows[i + 1..], seen) == DedupRows(rows)
    ensures Key(rows[i]) !in seen ==>
      (pushed + [rows[i]]) + DedupRowsFrom(rows[i + 1..], seen + {Key(rows[i])}) == DedupRows(rows)
  {
    assert rows[i..][0] == rows[i] && rows[i..][1..] == rows[i + 1..];
    if Key(rows[i]) !in seen {
      var rest := DedupRowsFrom(rows[i + 1..], seen + {Key(rows[i])});
      assert DedupRowsFrom(rows[i..], seen) == [rows[i]] + rest;
      assert (pushed + [rows[i]]) + rest == pushed + ([rows[i]] + rest);
    }
  }

  lemma KeySetCons(rows: seq<Row>)
    requires rows != []
    ensures KeySet(rows) == {Key(rows[0])} + KeySet(rows[1..])
  {
    forall key | key in KeySet(rows) ensures key in {Key(rows[0])} + KeySet(rows[1..]) {
      var i :| 0 <= i < |rows| && Key(rows[i]) == key;
      if i > 0 {
        assert Key(rows[1..][i - 1]) == key;
      }
    }
    forall key | key in KeySet(rows[1..]) ensures key in KeySet(rows) {
      var i :| 0 <= i < |rows[1..]| && Key(rows[1..][i]) == key;
      assert rows[i + 1] == rows[1..][i];
    }
  }

  lemma {:induction false} DedupRowsFromSubseq(rows: seq<Row>, seen: set<string>)
    ensures IsSubseq(DedupRowsFrom(rows, seen), rows)
    decreases |rows|
  {
    if rows != [] {
      var k0 := Key(rows[0]);
      if k0 in seen {
        DedupRowsFromSubseq(rows[1..], seen);
      } else {
        DedupRowsFromSubseq(rows[1..], seen + {k0});
        var r := DedupRowsFrom(rows, seen);
        assert r[1..] == DedupRowsFrom(rows[1..], seen + {k0});
      }
    }
  }

  lemma {:induction false} DedupRowsFromKeys(rows: seq<Row>, seen: set<string>)
    ensures KeySet(DedupRowsFrom(rows, seen)) == KeySet(rows) - seen
    decreases |rows|
  {
    if rows != [] {
      var k0 := Key(rows[0]);
      KeySetCons(rows);
      if k0 in seen {
        DedupRowsFromKeys(rows[1..], seen);
      } else {
        DedupRowsFromKeys(rows[1..], seen + {k0});
        KeySetCons(DedupRowsFrom(rows, seen));
        assert DedupRowsFrom(rows, seen)[1..] == DedupRowsFrom(rows[1..], seen + {k0});
      }
    }
  }

  lemma {:induction false} DedupRowsFromFirst(rows: seq<Row>, seen: set<string>)
    ensures forall x :: x in DedupRowsFrom(rows, seen) ==>
      Key(x) !in seen && 0 <= FindKey(rows, Key(x)) && rows[FindKey(rows, Key(x))] == x
    decreases |rows|
  {
    if rows != [] {
      var k0 := Key(rows[0]);
      var seen' := if k0 in seen then seen else seen + {k0};
      DedupRowsFromFirst(rows[1..], seen');
      var rest := DedupRowsFrom(rows[1..], seen');
      forall x | x in rest ensures FindKey(rows, Key(x)) == FindKey(rows[1..], Key(x)) + 1 {
        assert Key(x) != k0;
      }
      if k0 !in seen {
        assert DedupRowsFrom(rows, seen) == [rows[0]] + rest;
      }
    }
  }

  lemma {:induction false} DedupRowsFromDistinct(rows: seq<Row>, seen: set<string>)
    ensures KeysDistinct(DedupRowsFrom(rows, seen))
    decreases |rows|
  {
    if rows != [] {
      var k0 := Key(rows[0]);
      if k0 in seen {
        DedupRowsFromDistinct(rows[1..], seen);
      } else {
        var rest := DedupRowsFrom(rows[1..], seen + {k0});
        DedupRowsFromDistinct(rows[1..], seen + {k0});
        DedupRowsFromFirst(rows[1..], seen + {k0});
        var r := DedupRowsFrom(rows, seen);
        assert r == [rows[0]] + rest;
        forall a, b | 0 <= a < b < |r| ensures Key(r[a]) != Key(r[b]) {
          if a == 0 {
            assert r[b] in rest;
          } else {
            assert r[a] == rest[a - 1] && r[b] == rest[b - 1];
          }
        }
      }
    }
  }

  /** The output holds one row per key of the input, the first row with
      that key, in input order. */
  lemma DedupRowsSpec(rows: seq<Row>)
    ensures IsSubseq(DedupRows(rows), rows)
    ensures KeysDistinct(DedupRows(rows))
    ensures KeySet(DedupRows(rows)) == KeySet(rows)
    ensures forall x :: x in DedupRows(rows) ==> 0 <= FindKey(rows, Key(x)) && rows[FindKey(rows, Key(x))] == x
  {
    DedupRowsFromSubseq(rows, {});
    DedupRowsFromDistinct(rows, {});
    DedupRowsFromKeys(rows, {});
    DedupRowsFromFirst(rows, {});
  }

  /** A row whose key an earlier row already has is dropped, even when its
      name and number both differ from that row's. */
  lemma KeyCollision(a: string, b: string, c: string, d: string)
    requires a + b == c + d
    ensures DedupRows([Row(Some(a), Some(b)), Row(Some(c), Some(d))]) == [Row(Some(a), Some(b))]
  {
    var rows := [Row(Some(a), Some(b)), Row(Some(c), Some(d))];
    var seen: set<string> := {} + {Key(rows[0])};
    assert Key(rows[1]) in seen;
    assert rows[1..] == [Row(Some(c), Some(d))] && rows[1..][1..] == [];
    assert DedupRowsFrom(rows[1..], seen) == DedupRowsFrom([], seen) == [];
    assert DedupRows(rows) == [rows[0]] + DedupRowsFrom(rows[1..], seen);
  }

  /** ("a", "bc") and ("ab", "c") share the key "abc"; so do a NULL name and
      the name "null". */
  lemma CollisionExamples()
    ensures DedupRows([Row(Some("a"), Some("bc")), Row(Some("ab"), Some("c"))]) == [Row(Some("a"), Some("bc"))]
    ensures DedupRows([Row(Some("null"), Some("1")), Row(None, Some("1"))]) == [Row(Some("null"), Some("1"))]
  {
    KeyCollision("a", "bc", "ab", "c");
    var rows := [Row(Some("null"), Some("1")), Row(None, Some("1"))];
    assert Key(rows[0]) == Key(rows[1]);
    assert rows[1..] == [Row(None, Some("1"))] && rows[1..][1..] == [];
  }
}
