/** Importing a contact list into a campaign. */
module Contacts {
  import opened Wrappers
  import opened Campaigns

  datatype Consent = Absent | Valid | Malformed

  datatype Row = Row(phoneCell: string, zone: Option<Zone>, consent: Consent, doNotCall: bool)

  /** The running totals of the import loop; `errors` lists the refused rows by their number in the file. */
  datatype Tally = Tally(
    added: seq<Recipient>, known: set<string>,
    imported: nat, duplicates: nat, rejected: nat, errors: seq<nat>)

  predicate IsDigit(c: char) {
    '0' <= c <= '9'
  }

  /** A plus sign, a digit from 1 to 9, and seven to fourteen more digits. */
  predicate IsE164(phone: string) {
    && 9 <= |phone| <= 16
    && phone[0] == '+' && '1' <= phone[1] <= '9'
    && forall i :: 2 <= i < |phone| ==> IsDigit(phone[i])
  }

  function WithoutSpaces(s: string): string {
    if s == "" then "" else (if s[0] == ' ' then "" else [s[0]]) + WithoutSpaces(s[1..])
  }

  function PhoneOf(row: Row): string {
    WithoutSpaces(row.phoneCell)
  }

  /** One turn of the import loop, for the row numbered `number`. */
  function ImportRow(t: Tally, row: Row, number: nat, listed: set<string>): Tally {
    var phone := PhoneOf(row);
    if !IsE164(phone) then t.(rejected := t.rejected + 1, errors := t.errors + [number])
    else if phone in t.known then t.(duplicates := t.duplicates + 1)
    else if row.consent.Malformed? then
      t.(known := t.known + {phone}, rejected := t.rejected + 1, errors := t.errors + [number])
    else
      t.(known := t.known + {phone}, imported := t.imported + 1,
         added := t.added + [Newcomer(phone, row.zone, phone in listed || row.doNotCall)])
  }

  /** The first row of data is row 2 of the file. */
  function ImportRows(t: Tally, rows: seq<Row>, number: nat, listed: set<string>): Tally
    decreases rows
  {
    if rows == [] then t
    else ImportRows(ImportRow(t, rows[0], number, listed), rows[1..], number + 1, listed)
  }

  function Opening(existing: set<string>): Tally {
    Tally([], existing, 0, 0, 0, [])
  }

  method ReadContacts(rows: seq<Row>, existing: set<string>, listed: set<string>) returns (t: Tally)
    ensures t == ImportRows(Opening(existing), rows, 2, listed)
    ensures t.imported + t.duplicates + t.rejected == |rows|
  {
    t := Opening(existing);
    for i := 0 to |rows|
      invariant ImportRows(t, rows[i..], i + 2, listed) == ImportRows(Opening(existing), rows, 2, listed)
      invariant t.imported + t.duplicates + t.rejected == i
    {
      var phone := PhoneOf(rows[i]);
      if !IsE164(phone) {
        t := t.(rejected := t.rejected + 1, errors := t.errors + [i + 2]);
        continue;
      }
      if phone in t.known {
        t := t.(duplicates := t.duplicates + 1);
        continue;
      }
      t := t.(known := t.known + {phone});
      if rows[i].consent.Malformed? {
        t := t.(rejected := t.rejected + 1, errors := t.errors + [i + 2]);
        continue;
      }
      var recipient := Newcomer(phone, rows[i].zone, phone in listed || rows[i].doNotCall);
      t := t.(added := t.added + [recipient], imported := t.imported + 1);
    }
  }

  predicate Distinct(rs: seq<Recipient>) {
    forall i, j :: 0 <= i < j < |rs| ==> rs[i].phone != rs[j].phone
  }

  /** What the import loop keeps: totals that add up, and new rows with new, distinct, valid numbers. */
  ghost predicate Sound(t: Tally, existing: set<string>, listed: set<string>) {
    && t.imported == |t.added| && t.rejected == |t.errors|
    && Distinct(t.added) && existing <= t.known
    && forall i :: 0 <= i < |t.added| ==>
         && t.added[i].phone in t.known && t.added[i].phone !in existing && IsE164(t.added[i].phone)
         && IsNewcomer(t.added[i]) && (t.added[i].phone in listed ==> t.added[i].status.DoNotCall?)
  }

  lemma {:induction false} ImportIsSound(
      t: Tally, rows: seq<Row>, number: nat, existing: set<string>, listed: set<string>)
    requires Sound(t, existing, listed)
    ensures var u := ImportRows(t, rows, number, listed);
            && Sound(u, existing, listed)
            && u.imported + u.duplicates + u.rejected == t.imported + t.duplicates + t.rejected + |rows|
    decreases rows
  {
    hide IsE164, PhoneOf;
    if rows != [] {
      ImportIsSound(ImportRow(t, rows[0], number, listed), rows[1..], number + 1, existing, listed);
    }
  }

  function Phones(rs: seq<Recipient>): set<string> {
    set i | 0 <= i < |rs| :: rs[i].phone
  }

  /** The imported rows join the kept ones without breaking the one-row-per-number constraint; listed numbers are blocked. */
  lemma ImportKeepsNumbersUnique(kept: seq<Recipient>, rows: seq<Row>, listed: set<string>)
    requires Distinct(kept)
    ensures var t := ImportRows(Opening(Phones(kept)), rows, 2, listed);
            && Distinct(kept + t.added)
            && (forall r :: r in t.added ==> IsNewcomer(r) && (r.phone in listed ==> r.status.DoNotCall?))
  {
    hide IsE164, ImportRows, IsNewcomer;
    ImportIsSound(Opening(Phones(kept)), rows, 2, Phones(kept), listed);
    var t := ImportRows(Opening(Phones(kept)), rows, 2, listed);
    forall i, j | 0 <= i < |kept| && 0 <= j < |t.added|
      ensures kept[i].phone != t.added[j].phone
    {
      assert kept[i].phone in Phones(kept);
    }
  }

  /** Row `k` is the first one with number `phone`. */
  predicate FirstWith(rows: seq<Row>, phone: string, k: int) {
    && 0 <= k < |rows| && PhoneOf(rows[k]) == phone
    && forall i :: 0 <= i < k ==> PhoneOf(rows[i]) != phone
  }

  lemma {:induction false} ImportedExactly(t: Tally, rows: seq<Row>, number: nat, listed: set<string>, phone: string)
    requires IsE164(phone) && phone !in t.known && phone !in Phones(t.added)
    ensures phone in Phones(ImportRows(t, rows, number, listed).added)
            <==> exists k :: FirstWith(rows, phone, k) && !rows[k].consent.Malformed?
    decreases rows
  {
    hide IsE164, PhoneOf;
    if rows != [] {
      var u := ImportRow(t, rows[0], number, listed);
      if PhoneOf(rows[0]) == phone {
        assert FirstWith(rows, phone, 0);
        assert u.added != t.added ==> u.added[|t.added|].phone == phone;
        KnownIsKept(u, rows[1..], number + 1, listed, phone);
      } else {
        assert forall k :: FirstWith(rows, phone, k) ==> FirstWith(rows[1..], phone, k - 1) by {
          assert forall k :: 0 < k < |rows| ==> rows[k] == rows[1..][k - 1];
        }
        assert forall k :: FirstWith(rows[1..], phone, k) ==> FirstWith(rows, phone, k + 1);
        ImportedExactly(u, rows[1..], number + 1, listed, phone);
      }
    }
  }

  lemma {:induction false} KnownIsKept(t: Tally, rows: seq<Row>, number: nat, listed: set<string>, phone: string)
    requires phone in t.known
    ensures phone in Phones(ImportRows(t, rows, number, listed).added) <==> phone in Phones(t.added)
    decreases rows
  {
    hide IsE164, PhoneOf;
    if rows != [] {
      var u := ImportRow(t, rows[0], number, listed);
      KnownIsKept(u, rows[1..], number + 1, listed, phone);
      assert phone in Phones(u.added) <==> phone in Phones(t.added) by {
        if u.added != t.added {
          assert forall i :: 0 <= i < |t.added| ==> u.added[i] == t.added[i];
        }
      }
    }
  }

  /** A valid new number is imported exactly when the first row that carries it has a readable consent time. */
  lemma NumberIsImportedExactlyWhen(rows: seq<Row>, existing: set<string>, listed: set<string>, phone: string)
    requires IsE164(phone) && phone !in existing
    ensures phone in Phones(ImportRows(Opening(existing), rows, 2, listed).added)
            <==> exists k :: FirstWith(rows, phone, k) && !rows[k].consent.Malformed?
  {
    ImportedExactly(Opening(existing), rows, 2, listed, phone);
  }

  /** The new rows so far stay, in order. */
  lemma {:induction false} AddedOnlyGrows(t: Tally, rows: seq<Row>, number: nat, listed: set<string>)
    ensures t.added <= ImportRows(t, rows, number, listed).added
    decreases rows
  {
    hide IsE164, PhoneOf;
    if rows != [] {
      AddedOnlyGrows(ImportRow(t, rows[0], number, listed), rows[1..], number + 1, listed);
    }
  }

  lemma {:induction false} FirstRowIsAdded(t: Tally, rows: seq<Row>, number: nat, listed: set<string>, phone: string, k: nat)
    requires IsE164(phone) && phone !in t.known && FirstWith(rows, phone, k) && !rows[k].consent.Malformed?
    ensures Newcomer(phone, rows[k].zone, phone in listed || rows[k].doNotCall) in ImportRows(t, rows, number, listed).added
    decreases rows
  {
    hide IsE164, PhoneOf, Newcomer;
    var u := ImportRow(t, rows[0], number, listed);
    if k == 0 {
      AddedOnlyGrows(u, rows[1..], number + 1, listed);
      assert u.added[|t.added|] == Newcomer(phone, rows[0].zone, phone in listed || rows[0].doNotCall);
    } else {
      assert FirstWith(rows[1..], phone, k - 1) by {
        assert forall i :: 0 < i < |rows| ==> rows[i] == rows[1..][i - 1];
      }
      FirstRowIsAdded(u, rows[1..], number + 1, listed, phone, k - 1);
    }
  }

  /** A new number that is imported is blocked exactly when it is on the list at that time or its row asks for it. */
  lemma ImportedIsBlockedExactlyWhen(rows: seq<Row>, existing: set<string>, listed: set<string>, phone: string, k: nat)
    requires IsE164(phone) && phone !in existing && FirstWith(rows, phone, k) && !rows[k].consent.Malformed?
    ensures var added := ImportRows(Opening(existing), rows, 2, listed).added;
            && phone in Phones(added)
            && forall i :: 0 <= i < |added| && added[i].phone == phone ==>
                 (added[i].status.DoNotCall? <==> phone in listed || rows[k].doNotCall)
  {
    hide IsE164, ImportRows, PhoneOf;
    var added := ImportRows(Opening(existing), rows, 2, listed).added;
    FirstRowIsAdded(Opening(existing), rows, 2, listed, phone, k);
    ImportIsSound(Opening(existing), rows, 2, existing, listed);
    var m :| 0 <= m < |added| && added[m] == Newcomer(phone, rows[k].zone, phone in listed || rows[k].doNotCall);
    assert added[m].phone in Phones(added);
    forall i | 0 <= i < |added| && added[i].phone == phone
      ensures i == m
    {
      assert Distinct(added);
    }
  }

  /** One such input: the second row of a number is good, and refused as a duplicate of the first, which was refused for its consent time. */
  lemma UnreadableConsentUsesUpTheNumber(bad: Row, good: Row, existing: set<string>, listed: set<string>)
    requires PhoneOf(bad) == PhoneOf(good) && IsE164(PhoneOf(good)) && PhoneOf(good) !in existing
    requires bad.consent.Malformed? && good.consent.Valid?
    ensures var t := ImportRows(Opening(existing), [bad, good], 2, listed);
            t.added == [] && t.imported == 0 && t.rejected == 1 && t.duplicates == 1 && t.errors == [2]
  {
    hide IsE164, PhoneOf;
    var first := ImportRow(Opening(existing), bad, 2, listed);
    var second := ImportRow(first, good, 3, listed);
    assert [bad, good][1..] == [good] && [good][1..] == [];
    assert ImportRows(first, [good], 3, listed) == ImportRows(second, [], 4, listed);
  }
}
