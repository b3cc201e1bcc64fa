/** What becomes of every row of an import file, said row by row. */
module ImportedRows {
  import opened Wrappers
  import opened Campaigns
  import opened Contacts

  // ----- numbers

  /** A plus sign and eight to fifteen digits, the first of them not zero. */
  lemma NumbersAreInternational(phone: string)
    ensures IsE164(phone)
            <==> && phone != "" && phone[0] == '+' && 8 <= |phone| - 1 <= 15 && phone[1] != '0'
                 && forall i :: 0 < i < |phone| ==> phone[i] in "0123456789"
  {
    DigitsAreTen();
  }

  lemma DigitsAreTen()
    ensures forall c: char :: c in "0123456789" <==> '0' <= c <= '9'
  {
    var ten := "0123456789";
    forall c: char
      ensures c in ten <==> '0' <= c <= '9'
    {
      assert |ten| == 10 && forall i :: 0 <= i < 10 ==> ten[i] as int == '0' as int + i;
      if '0' <= c <= '9' {
        assert ten[c as int - '0' as int] == c;
      }
    }
  }

  /** Blanks are dropped from a number wherever they stand, and nothing else is. */
  lemma {:induction false} BlanksAreDropped(a: string, c: char, b: string)
    ensures WithoutSpaces(a + [c] + b) == WithoutSpaces(a) + (if c == ' ' then "" else [c]) + WithoutSpaces(b)
    decreases |a|
  {
    var s := a + [c] + b;
    if a == "" {
      assert s[0] == c && s[1..] == b;
      assert WithoutSpaces(a) + (if c == ' ' then "" else [c]) == if c == ' ' then "" else [c];
    } else {
      assert s[0] == a[0] && s[1..] == a[1..] + [c] + b;
      BlanksAreDropped(a[1..], c, b);
      var front := if a[0] == ' ' then "" else [a[0]];
      Associates(front, WithoutSpaces(a[1..]), if c == ' ' then "" else [c]);
      Associates(front, WithoutSpaces(a[1..]) + (if c == ' ' then "" else [c]), WithoutSpaces(b));
    }
  }

  // ----- rows

  predicate IsGoodNumber(rows: seq<Row>, k: nat) {
    k < |rows| && IsE164(PhoneOf(rows[k]))
  }

  /** The row's number is valid, new to the campaign, and not that of an earlier row. */
  predicate BringsANumber(rows: seq<Row>, existing: set<string>, k: nat) {
    && IsGoodNumber(rows, k) && PhoneOf(rows[k]) !in existing
    && forall i :: 0 <= i < k ==> PhoneOf(rows[i]) != PhoneOf(rows[k])
  }

  predicate IsImported(rows: seq<Row>, existing: set<string>, k: nat) {
    BringsANumber(rows, existing, k) && rows[k].consent != Malformed
  }

  predicate IsRefused(rows: seq<Row>, existing: set<string>, k: nat) {
    k < |rows| && (!IsGoodNumber(rows, k) || (BringsANumber(rows, existing, k) && rows[k].consent == Malformed))
  }

  predicate Increase(s: seq<nat>) {
    forall i, j :: 0 <= i < j < |s| ==> s[i] < s[j]
  }

  /** The recipient a row describes: blocked if its number is listed or the row asks for it, and not called yet. */
  predicate IsRecipientOf(r: Recipient, row: Row, listed: set<string>) {
    && r.phone == PhoneOf(row) && r.zone == row.zone && r.attemptsCount == 0 && r.nextAttemptAt == None && r.attempts == []
    && r.status == if r.phone in listed || row.doNotCall then DoNotCall else RecipientStatus.Pending
  }

  lemma {:induction false} OneMoreRow(t: Tally, rows: seq<Row>, row: Row, number: nat, listed: set<string>)
    ensures ImportRows(t, rows + [row], number, listed) == ImportRow(ImportRows(t, rows, number, listed), row, number + |rows|, listed)
    decreases |rows|
  {
    hide ImportRow;
    if rows == [] {
      assert [] + [row] == [row] && [row][1..] == [];
    } else {
      OneMoreRow(ImportRow(t, rows[0], number, listed), rows[1..], row, number + 1, listed);
      assert (rows + [row])[1..] == rows[1..] + [row];
    }
  }

  /** The numbers known are those the campaign had and the valid ones read so far. */
  ghost predicate KnowsNumbers(t: Tally, rows: seq<Row>, existing: set<string>) {
    forall phone :: phone in t.known <==> phone in existing || exists k: nat :: IsGoodNumber(rows, k) && PhoneOf(rows[k]) == phone
  }

  /** The rows imported so far, whose positions are `at`. */
  ghost predicate AddsRows(t: Tally, rows: seq<Row>, existing: set<string>, listed: set<string>, at: seq<nat>) {
    && Increase(at) && (forall k: nat :: k in at <==> IsImported(rows, existing, k))
    && |t.added| == |at| == t.imported
    && (forall i :: 0 <= i < |at| ==> at[i] < |rows| && IsRecipientOf(t.added[i], rows[at[i]], listed))
  }

  /** The first row of data is row 2 of the file. */
  ghost predicate NamesErrors(t: Tally, rows: seq<Row>, existing: set<string>) {
    && Increase(t.errors) && |t.errors| == t.rejected
    && (forall n: nat :: n in t.errors <==> n >= 2 && IsRefused(rows, existing, n - 2))
  }

  ghost predicate Tells(t: Tally, rows: seq<Row>, existing: set<string>, listed: set<string>, at: seq<nat>) {
    && KnowsNumbers(t, rows, existing) && AddsRows(t, rows, existing, listed, at) && NamesErrors(t, rows, existing)
    && t.imported + t.duplicates + t.rejected == |rows|
  }

  lemma EarlierRowsStay(rows: seq<Row>, row: Row, existing: set<string>)
    ensures forall k: nat :: k < |rows| ==>
              && (IsGoodNumber(rows + [row], k) <==> IsGoodNumber(rows, k))
              && (IsImported(rows + [row], existing, k) <==> IsImported(rows, existing, k))
              && (IsRefused(rows + [row], existing, k) <==> IsRefused(rows, existing, k))
    ensures forall k: nat :: IsImported(rows, existing, k) || IsRefused(rows, existing, k) ==> k < |rows|
    ensures forall k: nat :: IsImported(rows + [row], existing, k) || IsRefused(rows + [row], existing, k) ==> k <= |rows|
  {
    hide IsE164, PhoneOf;
    var all := rows + [row];
    forall k: nat | k < |rows|
      ensures BringsANumber(all, existing, k) <==> BringsANumber(rows, existing, k)
    {
      assert all[k] == rows[k] && forall i :: 0 <= i < k ==> all[i] == rows[i];
    }
  }

  lemma LastRowBrings(t: Tally, rows: seq<Row>, row: Row, existing: set<string>)
    requires KnowsNumbers(t, rows, existing)
    ensures var all := rows + [row];
            && (IsGoodNumber(all, |rows|) <==> IsE164(PhoneOf(row)))
            && (BringsANumber(all, existing, |rows|) <==> IsE164(PhoneOf(row)) && PhoneOf(row) !in t.known)
  {
    hide IsE164, PhoneOf;
    var all, phone := rows + [row], PhoneOf(row);
    assert forall k: nat :: k < |rows| ==> all[k] == rows[k];
    if IsE164(phone) && exists i :: 0 <= i < |rows| && PhoneOf(all[i]) == phone {
      var i :| 0 <= i < |rows| && PhoneOf(all[i]) == phone;
      assert IsGoodNumber(rows, i) && PhoneOf(rows[i]) == phone;
    }
  }

  lemma OneMoreIsKnown(t: Tally, rows: seq<Row>, row: Row, existing: set<string>, listed: set<string>)
    requires KnowsNumbers(t, rows, existing)
    ensures KnowsNumbers(ImportRow(t, row, |rows| + 2, listed), rows + [row], existing)
  {
    hide IsE164, PhoneOf, Newcomer;
    var all, u := rows + [row], ImportRow(t, row, |rows| + 2, listed);
    assert forall k: nat :: k < |rows| ==> all[k] == rows[k];
    LastRowBrings(t, rows, row, existing);
    assert u.known == if IsE164(PhoneOf(row)) then t.known + {PhoneOf(row)} else t.known;
    forall phone
      ensures phone in u.known <==> phone in existing || exists k: nat :: IsGoodNumber(all, k) && PhoneOf(all[k]) == phone
    {
      if phone in t.known && phone !in existing {
        var k: nat :| IsGoodNumber(rows, k) && PhoneOf(rows[k]) == phone;
        assert IsGoodNumber(all, k) && PhoneOf(all[k]) == phone;
      }
      if k: nat :| IsGoodNumber(all, k) && PhoneOf(all[k]) == phone && k < |rows| {
        assert IsGoodNumber(rows, k) && PhoneOf(rows[k]) == phone;
      }
    }
  }

  /** One more row, seen from the imported ones. */
  lemma LastRowIsAdded(t: Tally, rows: seq<Row>, row: Row, existing: set<string>, listed: set<string>)
    requires KnowsNumbers(t, rows, existing)
    ensures var u := ImportRow(t, row, |rows| + 2, listed);
            if IsImported(rows + [row], existing, |rows|) then
              && |u.added| == |t.added| + 1 && u.added[..|t.added|] == t.added && u.imported == t.imported + 1
              && IsRecipientOf(u.added[|t.added|], row, listed)
            else u.added == t.added && u.imported == t.imported
  {
    hide IsE164, PhoneOf, KnowsNumbers, BringsANumber;
    LastRowBrings(t, rows, row, existing);
  }

  lemma OneMoreIsAdded(t: Tally, rows: seq<Row>, row: Row, existing: set<string>, listed: set<string>, at: seq<nat>)
    requires KnowsNumbers(t, rows, existing) && AddsRows(t, rows, existing, listed, at)
    ensures AddsRows(ImportRow(t, row, |rows| + 2, listed), rows + [row], existing, listed,
                     if IsImported(rows + [row], existing, |rows|) then at + [|rows|] else at)
  {
    hide IsE164, PhoneOf, KnowsNumbers, IsImported, IsRecipientOf, ImportRow;
    var n, all, u := |rows|, rows + [row], ImportRow(t, row, |rows| + 2, listed);
    LastRowIsAdded(t, rows, row, existing, listed);
    EarlierRowsStay(rows, row, existing);
    var now := if IsImported(all, existing, n) then at + [n] else at;
    forall k: nat
      ensures k in now <==> IsImported(all, existing, k)
    {
      if k < n {
        assert k in at <==> IsImported(rows, existing, k);
      }
    }
    forall i | 0 <= i < |now|
      ensures now[i] < |all| && IsRecipientOf(u.added[i], all[now[i]], listed)
    {
      if i < |at| {
        assert u.added[i] == t.added[i] && all[at[i]] == rows[at[i]];
      }
    }
  }

  /** One more row, seen from the errors. */
  lemma LastRowIsRefused(t: Tally, rows: seq<Row>, row: Row, existing: set<string>, listed: set<string>)
    requires KnowsNumbers(t, rows, existing)
    ensures var u := ImportRow(t, row, |rows| + 2, listed);
            if IsRefused(rows + [row], existing, |rows|) then u.errors == t.errors + [|rows| + 2] && u.rejected == t.rejected + 1
            else u.errors == t.errors && u.rejected == t.rejected
  {
    hide IsE164, PhoneOf, KnowsNumbers, BringsANumber, IsGoodNumber, Newcomer;
    LastRowBrings(t, rows, row, existing);
  }

  lemma OneMoreError(t: Tally, rows: seq<Row>, row: Row, existing: set<string>, listed: set<string>)
    requires KnowsNumbers(t, rows, existing) && NamesErrors(t, rows, existing)
    ensures NamesErrors(ImportRow(t, row, |rows| + 2, listed), rows + [row], existing)
  {
    hide KnowsNumbers, IsRefused, ImportRow;
    var n, all, u := |rows|, rows + [row], ImportRow(t, row, |rows| + 2, listed);
    LastRowIsRefused(t, rows, row, existing, listed);
    EarlierRowsStay(rows, row, existing);
    forall i | 0 <= i < |t.errors|
      ensures t.errors[i] < n + 2
    {
      assert t.errors[i] in t.errors;
    }
    forall m: nat
      ensures m in u.errors <==> m >= 2 && IsRefused(all, existing, m - 2)
    {
      assert m in t.errors <==> m >= 2 && IsRefused(rows, existing, m - 2);
      if m >= 2 && m - 2 < n {
        assert IsRefused(all, existing, m - 2) <==> IsRefused(rows, existing, m - 2);
      }
    }
  }

  lemma OneMoreIsTold(t: Tally, rows: seq<Row>, row: Row, existing: set<string>, listed: set<string>, at: seq<nat>)
    returns (now: seq<nat>)
    requires Tells(t, rows, existing, listed, at)
    ensures Tells(ImportRow(t, row, |rows| + 2, listed), rows + [row], existing, listed, now)
  {
    hide KnowsNumbers, AddsRows, NamesErrors, IsE164, PhoneOf, Newcomer, IsImported;
    now := if IsImported(rows + [row], existing, |rows|) then at + [|rows|] else at;
    OneMoreIsKnown(t, rows, row, existing, listed);
    OneMoreIsAdded(t, rows, row, existing, listed, at);
    OneMoreError(t, rows, row, existing, listed);
  }

  /**
    The rows imported are exactly those that bring a number and have a readable consent time, in the order of the file; the errors
    name exactly the rows with a bad number or an unreadable consent time; every other row is a duplicate.
   */
  lemma {:induction false} EveryRowIsAccountedFor(rows: seq<Row>, existing: set<string>, listed: set<string>) returns (at: seq<nat>)
    ensures Tells(ImportRows(Opening(existing), rows, 2, listed), rows, existing, listed, at)
    decreases |rows|
  {
    hide ImportRow, Tells;
    if rows == [] {
      at := [];
      NothingIsTold(existing, listed);
    } else {
      var n := |rows| - 1;
      var front := rows[..n];
      assert rows == front + [rows[n]];
      var before := EveryRowIsAccountedFor(front, existing, listed);
      OneMoreRow(Opening(existing), front, rows[n], 2, listed);
      at := OneMoreIsTold(ImportRows(Opening(existing), front, 2, listed), front, rows[n], existing, listed, before);
    }
  }

  lemma NothingIsTold(existing: set<string>, listed: set<string>)
    ensures Tells(ImportRows(Opening(existing), [], 2, listed), [], existing, listed, [])
  {
  }
}
