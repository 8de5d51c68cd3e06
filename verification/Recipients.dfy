/**
 Importing a campaign's recipients from a parsed file: normalise each phone, skip what is invalid or already seen in
 this file, and insert the rest into a table that ignores phones the campaign already has.
 */
module Recipients {
  import opened Options
  import opened Phone

  /** What the file reader yields next: the fields of a row, or a parse error. */
  datatype Record = Row(fields: seq<string>) | Malformed

  /** The canonical phone of a row, if it has one. */
  function PhoneOf(r: Record): Option<string> {
    if r.Malformed? || |r.fields| == 0 then None else NormalizeBD(TrimSpace(r.fields[0]))
  }

  function NameOf(r: Record): string {
    if r.Row? && |r.fields| > 1 then TrimSpace(r.fields[1]) else ""
  }

  /** The insert that does nothing on conflict. */
  function Added(store: map<string, string>, phone: string, name: string): map<string, string> {
    if phone in store then store else store[phone := name]
  }

  function StoreRow(store: map<string, string>, r: Record): map<string, string> {
    if PhoneOf(r).None? then store else Added(store, PhoneOf(r).value, NameOf(r))
  }

  /** The table after importing `rows` one by one, with no other memory than the table. */
  function Stored(store: map<string, string>, rows: seq<Record>): map<string, string> {
    if rows == [] then store else StoreRow(Stored(store, rows[..|rows| - 1]), rows[|rows| - 1])
  }

  /** The distinct canonical phones of a file. */
  function Phones(rows: seq<Record>): set<string> {
    if rows == [] then {} else
      var before, r := Phones(rows[..|rows| - 1]), rows[|rows| - 1];
      if PhoneOf(r).None? then before else before + {PhoneOf(r).value}
  }

  /** The same for the first `n` rows of a file. */
  function StoredTo(store: map<string, string>, rows: seq<Record>, n: nat): map<string, string>
    requires n <= |rows|
  {
    if n == 0 then store else StoreRow(StoredTo(store, rows, n - 1), rows[n - 1])
  }

  function PhonesTo(rows: seq<Record>, n: nat): set<string>
    requires n <= |rows|
  {
    if n == 0 then {} else
      var before, r := PhonesTo(rows, n - 1), rows[n - 1];
      if PhoneOf(r).None? then before else before + {PhoneOf(r).value}
  }

  lemma {:induction false} FirstRows(store: map<string, string>, rows: seq<Record>, n: nat)
    requires n <= |rows|
    ensures StoredTo(store, rows, n) == Stored(store, rows[..n]) && PhonesTo(rows, n) == Phones(rows[..n])
  {
    if n > 0 {
      FirstRows(store, rows, n - 1);
      assert rows[..n][..n - 1] == rows[..n - 1];
    }
  }

  datatype Error = NotFound | BadFile | StoreFailed

  class Campaign {
    var recipients: map<string, string>

    constructor ()
      ensures recipients == map[]
    {
      recipients := map[];
    }

    method AddRecipient(phone: string, name: string)
      modifies this
      ensures recipients == Added(old(recipients), phone, name)
    {
      if phone !in recipients {
        recipients := recipients[phone := name];
      }
    }

    /**
     `owned` says whether the campaign is the caller's, `inserts(i)` how inserting the recipient of row `i` goes. On an
     error, `stop` is the row it happened at: everything before it went well and stays imported, and so does that row
     itself if its insert took effect although it was reported as failed.
     */
    method ImportRecipients(owned: bool, rows: seq<Record>, inserts: nat -> Fate)
      returns (added: nat, error: Option<Error>, stop: nat)
      modifies this
      ensures !owned ==> error == Some(NotFound) && added == 0 && stop == 0
      ensures stop <= |rows| && added == |PhonesTo(rows, stop)|
      ensures WentWell(rows, inserts, stop)
      ensures var done := if error == Some(StoreFailed) && inserts(stop).Applied? then stop + 1 else stop;
              done <= |rows| && recipients == StoredTo(old(recipients), rows, done)
      ensures owned ==>
                match error
                case None => stop == |Readable(rows)| == |rows|
                case Some(BadFile) => stop == |Readable(rows)| < |rows|
                case Some(StoreFailed) => stop < |rows| && IsNew(rows, stop) && !inserts(stop).Works?
                case Some(NotFound) => false
    {
      if !owned {
        return 0, Some(NotFound), 0;
      }
      var seen: set<string> := {};
      added := 0;
      for i := 0 to |rows|
        invariant GotTo(old(recipients), rows, inserts, i, recipients, seen)
        invariant added == |seen|
      {
        GotToNext(old(recipients), rows, inserts, i, recipients, seen);
        if rows[i].Malformed? {
          return added, Some(BadFile), i;
        }
        var phone, failed := ImportRow(rows[i], seen, inserts(i));
        if failed {
          return added, Some(StoreFailed), i;
        }
        if phone.Some? {
          seen := seen + {phone.value};
          added := added + 1;
        }
      }
      ReadableUpTo(rows, |rows|);
      return added, None, |rows|;
    }

    /** One row of an import: its phone is inserted if it is valid and not yet seen in the file. */
    method ImportRow(row: Record, seen: set<string>, insert: Fate) returns (phone: Option<string>, failed: bool)
      requires row.Row?
      modifies this
      ensures var isNew := PhoneOf(row).Some? && PhoneOf(row).value !in seen;
              && phone == (if isNew then PhoneOf(row) else None)
              && (failed <==> isNew && !insert.Works?)
              && recipients == (if isNew && !insert.Lost? then Added(old(recipients), phone.value, NameOf(row))
                                else old(recipients))
              && (isNew && !insert.Lost? && phone.value !in old(recipients) ==>
                    && phone.value in recipients
                    && recipients[phone.value] == if |row.fields| > 1 then TrimSpace(row.fields[1]) else "")
    {
      if |row.fields| == 0 {
        return None, false;
      }
      phone := NormalizeBD(TrimSpace(row.fields[0]));
      if phone.None? || phone.value in seen {
        return None, false;
      }
      if !insert.Lost? {
        AddRecipient(phone.value, if |row.fields| > 1 then TrimSpace(row.fields[1]) else "");
      }
      failed := !insert.Works?;
    }
  }

  /** The import has got to row `i`, with `store` in the table and `seen` the phones of the file so far. */
  ghost predicate GotTo(before: map<string, string>, rows: seq<Record>, inserts: nat -> Fate, i: nat,
                        store: map<string, string>, seen: set<string>)
    requires i <= |rows|
  {
    WentWell(rows, inserts, i) && store == StoredTo(before, rows, i) && seen == PhonesTo(rows, i) && seen <= store.Keys
  }

  /** The next row ends the import, is skipped, or is inserted. */
  lemma GotToNext(before: map<string, string>, rows: seq<Record>, inserts: nat -> Fate, i: nat,
                  store: map<string, string>, seen: set<string>)
    requires i < |rows| && GotTo(before, rows, inserts, i, store, seen)
    ensures rows[i].Malformed? ==> |Readable(rows)| == i
    ensures IsNew(rows, i) <==> PhoneOf(rows[i]).Some? && PhoneOf(rows[i]).value !in seen
    ensures rows[i].Row? && !IsNew(rows, i) ==> GotTo(before, rows, inserts, i + 1, store, seen)
    ensures IsNew(rows, i) ==>
              var phone, store' := PhoneOf(rows[i]).value, Added(store, PhoneOf(rows[i]).value, NameOf(rows[i]));
              && store' == StoredTo(before, rows, i + 1)
              && (inserts(i).Works? ==> GotTo(before, rows, inserts, i + 1, store', seen + {phone}))
  {
    WentWellSnoc(rows, inserts, i);
    if rows[i].Malformed? {
      ReadableUpTo(rows, i);
    }
  }

  /** Row `k` has a phone that no earlier row of the file has, so the import inserts it. */
  predicate IsNew(rows: seq<Record>, k: nat)
    requires k < |rows|
  {
    PhoneOf(rows[k]).Some? && PhoneOf(rows[k]).value !in PhonesTo(rows, k)
  }

  /** The first `n` rows parse, and what they insert goes in. */
  predicate WentWell(rows: seq<Record>, inserts: nat -> Fate, n: nat)
    requires n <= |rows|
  {
    forall k | 0 <= k < n :: rows[k].Row? && (IsNew(rows, k) ==> inserts(k).Works?)
  }

  lemma WentWellSnoc(rows: seq<Record>, inserts: nat -> Fate, n: nat)
    requires n < |rows|
    ensures WentWell(rows, inserts, n + 1)
       <==> WentWell(rows, inserts, n) && rows[n].Row? && (IsNew(rows, n) ==> inserts(n).Works?)
  {
  }

  // ---------------------------------------------------------------- what an import means

  lemma StoredSnoc(store: map<string, string>, rows: seq<Record>, r: Record)
    ensures Stored(store, rows + [r]) == StoreRow(Stored(store, rows), r)
  {
    assert (rows + [r])[..|rows|] == rows;
  }

  lemma {:induction false} StoredConcat(store: map<string, string>, a: seq<Record>, b: seq<Record>)
    ensures Stored(Stored(store, a), b) == Stored(store, a + b)
  {
    if b == [] {
      assert a + b == a;
    } else {
      var init, r := b[..|b| - 1], b[|b| - 1];
      StoredConcat(store, a, init);
      StoredSnoc(Stored(store, a), init, r);
      StoredSnoc(store, a + init, r);
      assert init + [r] == b && (a + init) + [r] == a + b;
    }
  }

  lemma {:induction false} PhonesCompose(a: seq<Record>, b: seq<Record>)
    ensures Phones(a + b) == Phones(a) + Phones(b)
  {
    if b == [] {
      assert a + b == a;
    } else {
      var n := |b| - 1;
      PhonesCompose(a, b[..n]);
      assert (a + b)[..|a| + n] == a + b[..n];
    }
  }

  /** The name on the first row of the file with this phone. */
  function FirstName(rows: seq<Record>, phone: string): string {
    if rows == [] then ""
    else if PhoneOf(rows[0]) == Some(phone) then NameOf(rows[0])
    else FirstName(rows[1..], phone)
  }

  lemma {:induction false} FirstNameSnoc(rows: seq<Record>, r: Record, phone: string)
    ensures FirstName(rows + [r], phone) ==
              if phone in Phones(rows) then FirstName(rows, phone)
              else if PhoneOf(r) == Some(phone) then NameOf(r) else ""
  {
    if rows != [] {
      var rest := rows[1..];
      FirstNameSnoc(rest, r, phone);
      assert (rows + [r])[1..] == rest + [r];
      PhonesCompose([rows[0]], rest);
      assert [rows[0]] + rest == rows;
      assert [rows[0]][..0] == [];
    } else {
      assert [r][1..] == [];
    }
  }

  lemma {:induction false} NamesStored(store: map<string, string>, rows: seq<Record>, phone: string)
    ensures var after := Stored(store, rows);
            && (phone in after <==> phone in store || phone in Phones(rows))
            && (phone in after ==> after[phone] == if phone in store then store[phone] else FirstName(rows, phone))
  {
    if rows != [] {
      var n := |rows| - 1;
      NamesStored(store, rows[..n], phone);
      assert rows == rows[..n] + [rows[n]];
      FirstNameSnoc(rows[..n], rows[n], phone);
    }
  }

  /** The first field of a row, trimmed, normalises to `phone`. */
  predicate HasPhone(r: Record, phone: string) {
    r.Row? && |r.fields| > 0 && NormalizeBD(TrimSpace(r.fields[0])) == Some(phone)
  }

  /** Row `k` is the first of the file with this phone. */
  predicate IsFirst(rows: seq<Record>, k: nat, phone: string) {
    k < |rows| && HasPhone(rows[k], phone) && forall j | 0 <= j < k :: !HasPhone(rows[j], phone)
  }

  lemma HasPhoneIs(r: Record, phone: string)
    ensures HasPhone(r, phone) <==> PhoneOf(r) == Some(phone)
  {
  }

  lemma {:induction false} FirstRowNames(rows: seq<Record>, phone: string) returns (k: nat)
    ensures phone in Phones(rows) <==> k < |rows|
    ensures k < |rows| ==> IsFirst(rows, k, phone) && FirstName(rows, phone) == NameOf(rows[k])
  {
    if rows == [] {
      return 0;
    }
    HasPhoneIs(rows[0], phone);
    PhonesCompose([rows[0]], rows[1..]);
    assert [rows[0]] + rows[1..] == rows && [rows[0]][..0] == [];
    if PhoneOf(rows[0]) == Some(phone) {
      return 0;
    }
    k := FirstRowNames(rows[1..], phone);
    if k < |rows| - 1 {
      assert forall j | 0 < j <= k :: rows[j] == rows[1..][j - 1];
    }
    k := k + 1;
  }

  /**
   The table keeps what it had, and gains exactly the phones that rows of the file have; such a phone comes with the
   second field, trimmed, of the first row that has it, or no name if that row has no second field.
   */
  lemma FirstNameWins(store: map<string, string>, rows: seq<Record>, phone: string)
    ensures var after := Stored(store, rows);
            if phone in store then phone in after && after[phone] == store[phone]
            else
              && (phone in after <==> exists k: nat :: IsFirst(rows, k, phone))
              && forall k: nat | IsFirst(rows, k, phone) ::
                   phone in after
                   && after[phone] == if |rows[k].fields| > 1 then TrimSpace(rows[k].fields[1]) else ""
  {
    NamesStored(store, rows, phone);
    var first := FirstRowNames(rows, phone);
    forall k: nat | IsFirst(rows, k, phone)
      ensures phone in Phones(rows) && FirstName(rows, phone) == NameOf(rows[k])
    {
      HasRowsPhone(rows, k, phone);
      OnlyOneFirst(rows, first, k, phone);
    }
  }

  lemma OnlyOneFirst(rows: seq<Record>, j: nat, k: nat, phone: string)
    requires IsFirst(rows, j, phone) && IsFirst(rows, k, phone)
    ensures j == k
  {
  }

  lemma {:induction false} HasRowsPhone(rows: seq<Record>, k: nat, phone: string)
    requires k < |rows| && HasPhone(rows[k], phone)
    ensures phone in Phones(rows)
  {
    HasPhoneIs(rows[k], phone);
    if k < |rows| - 1 {
      HasRowsPhone(rows[..|rows| - 1], k, phone);
    }
  }

  ghost predicate Canonical(store: map<string, string>) {
    forall phone | phone in store :: NormalizeBD(phone) == Some(phone)
  }

  /** Every stored phone is its own canonical form. */
  lemma {:induction false} StoresCanonical(store: map<string, string>, rows: seq<Record>)
    requires Canonical(store)
    ensures Canonical(Stored(store, rows))
  {
    if rows != [] {
      var n := |rows| - 1;
      StoresCanonical(store, rows[..n]);
      if PhoneOf(rows[n]).Some? {
        NormalizeIdempotent(TrimSpace(rows[n].fields[0]));
      }
    }
  }

  lemma {:induction false} KnownPhonesChangeNothing(store: map<string, string>, rows: seq<Record>)
    requires Phones(rows) <= store.Keys
    ensures Stored(store, rows) == store
  {
    if rows != [] {
      KnownPhonesChangeNothing(store, rows[..|rows| - 1]);
    }
  }

  /** A file whose rows carry phones taken from the table. */
  ghost predicate ListsOf(store: map<string, string>, rows: seq<Record>) {
    forall r | r in rows :: r.Row? && |r.fields| > 0 && r.fields[0] in store
  }

  /** The phones such a file lists, as written. */
  function Listed(rows: seq<Record>): set<string> {
    set r | r in rows && r.Row? && |r.fields| > 0 :: r.fields[0]
  }

  lemma ListedRow(store: map<string, string>, r: Record)
    requires Canonical(store) && r.Row? && |r.fields| > 0 && r.fields[0] in store
    ensures PhoneOf(r) == Some(r.fields[0])
  {
    TrimmedNormalizesAlike(r.fields[0]);
  }

  lemma {:induction false} PhonesOfList(store: map<string, string>, rows: seq<Record>)
    requires Canonical(store) && ListsOf(store, rows)
    ensures Phones(rows) == Listed(rows) <= store.Keys
  {
    if rows != [] {
      var n := |rows| - 1;
      var init, r := rows[..n], rows[n];
      assert rows == init + [r];
      PhonesOfList(store, init);
      ListedRow(store, r);
      assert Listed(rows) == Listed(init) + {r.fields[0]};
    }
  }

  /** Importing an export changes nothing, whatever names it carries, and counts the phones it lists. */
  lemma ReimportChangesNothing(store: map<string, string>, rows: seq<Record>)
    requires Canonical(store) && ListsOf(store, rows)
    ensures Stored(store, rows) == store
    ensures Listed(rows) == store.Keys ==> |Phones(rows)| == |store|
  {
    PhonesOfList(store, rows);
    KnownPhonesChangeNothing(store, rows);
  }

  /** The count returned is the growth of the table exactly when no phone of the file was stored before. */
  lemma CountIsGrowthExactlyWhen(store: map<string, string>, rows: seq<Record>)
    ensures |Stored(store, rows)| == |store| + |Phones(rows)| <==> Phones(rows) !! store.Keys
  {
    var after := Stored(store, rows);
    forall phone ensures phone in after.Keys <==> phone in store.Keys + Phones(rows) {
      NamesStored(store, rows, phone);
    }
    assert after.Keys == store.Keys + Phones(rows);
    assert |after| == |after.Keys| && |store| == |store.Keys|;
    var both := store.Keys * Phones(rows);
    assert |store.Keys + Phones(rows)| == |store.Keys| + |Phones(rows)| - |both|;
  }

  // ---------------------------------------------------------------- importing file after file

  /** The rows before the first one that does not parse, which ends the import. */
  function Readable(rows: seq<Record>): (r: seq<Record>)
    ensures |r| <= |rows| && r == rows[..|r|] && (|r| < |rows| ==> rows[|r|].Malformed?)
    ensures forall k | 0 <= k < |r| :: rows[k].Row?
  {
    if rows == [] || rows[0].Malformed? then [] else [rows[0]] + Readable(rows[1..])
  }

  lemma ReadableUpTo(rows: seq<Record>, i: nat)
    requires i <= |rows| && (i < |rows| ==> rows[i].Malformed?) && forall k | 0 <= k < i :: rows[k].Row?
    ensures Readable(rows) == rows[..i]
  {
    var n := |Readable(rows)|;
    assert n == i;
  }

  /** The table after importing a file whose inserts work. */
  function Imported(store: map<string, string>, rows: seq<Record>): map<string, string> {
    Stored(store, Readable(rows))
  }

  lemma ReadableConcat(a: seq<Record>, b: seq<Record>)
    ensures Readable(a + b) == if Malformed in a then Readable(a) else a + Readable(b)
  {
    var n := |Readable(a)|;
    if Malformed in a {
      assert n < |a| && (a + b)[..n] == Readable(a);
      ReadableUpTo(a + b, n);
    } else {
      var m := |a| + |Readable(b)|;
      assert forall k | 0 <= k < |a| :: a[k] in a;
      assert (a + b)[..m] == a + Readable(b);
      ReadableUpTo(a + b, m);
    }
  }

  /** What the import leaves when it meets no failing insert: its readable rows in the table, their phones counted. */
  lemma ReadableIsImported(store: map<string, string>, rows: seq<Record>)
    ensures var stop := |Readable(rows)|;
            StoredTo(store, rows, stop) == Imported(store, rows) && PhonesTo(rows, stop) == Phones(Readable(rows))
  {
    FirstRows(store, rows, |Readable(rows)|);
  }

  lemma AddsNothingExactlyWhen(store: map<string, string>, rows: seq<Record>)
    ensures Stored(store, rows) == store <==> Phones(rows) <= store.Keys
  {
    if Phones(rows) <= store.Keys {
      KnownPhonesChangeNothing(store, rows);
    } else {
      var phone :| phone in Phones(rows) && phone !in store;
      NamesStored(store, rows, phone);
    }
  }

  /**
   Importing two files is importing their concatenation, exactly when the first one parses to its end or the second one
   would add nothing after it.
   */
  lemma ImportComposesExactlyWhen(store: map<string, string>, a: seq<Record>, b: seq<Record>)
    ensures Imported(Imported(store, a), b) == Imported(store, a + b)
       <==> Malformed !in a || Phones(Readable(b)) <= Imported(store, a).Keys
  {
    ReadableConcat(a, b);
    if Malformed in a {
      AddsNothingExactlyWhen(Imported(store, a), Readable(b));
    } else {
      assert Readable(a) == a;
      StoredConcat(store, a, Readable(b));
    }
  }
}
