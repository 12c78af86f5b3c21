/** The table of a user's transactions: deduplicating import and category corrections.  A row
    is identified by its owner and its fingerprint, which are unique together. */
module Ledger {
  import opened Wrappers
  import opened Amount

  datatype Row = Row(date: string, merchant: string, kind: Kind, category: string, amount: int)

  datatype Item = Item(fingerprint: string, row: Row)

  datatype Key = Key(user: int, fingerprint: string)

  type Table = map<Key, Row>

  datatype Counts = Counts(imported: nat, duplicate: nat)

  // ------------------------------------------------------------------- import

  /** INSERT ... ON CONFLICT (user_id, fingerprint) DO NOTHING. */
  function InsertRow(table: Table, user: int, item: Item): Table {
    var key := Key(user, item.fingerprint);
    if key in table then table else table[key := item.row]
  }

  function Import(table: Table, user: int, batch: seq<Item>): Table {
    if batch == [] then table
    else InsertRow(Import(table, user, batch[..|batch| - 1]), user, batch[|batch| - 1])
  }

  /** The fingerprints of a batch that the user does not have yet. */
  function NewFingerprints(table: Table, user: int, batch: seq<Item>): set<string> {
    set i | 0 <= i < |batch| && Key(user, batch[i].fingerprint) !in table :: batch[i].fingerprint
  }

  function CountsOf(table: Table, user: int, batch: seq<Item>): (c: Counts)
  {
    if batch == [] then Counts(0, 0)
    else
      var n := |batch| - 1;
      var before := CountsOf(table, user, batch[..n]);
      if Key(user, batch[n].fingerprint) in Import(table, user, batch[..n])
      then before.(duplicate := before.duplicate + 1)
      else before.(imported := before.imported + 1)
  }

  /** The first item of a batch with a fingerprint. */
  predicate FirstOf(batch: seq<Item>, i: nat, fingerprint: string) {
    && i < |batch| && batch[i].fingerprint == fingerprint
    && forall j :: 0 <= j < i ==> batch[j].fingerprint != fingerprint
  }

  /** Rows that were there stay as they are, and other users get none. */
  lemma {:induction false} ImportKeeps(table: Table, user: int, batch: seq<Item>, key: Key)
    ensures key in table ==> key in Import(table, user, batch) && Import(table, user, batch)[key] == table[key]
    ensures key.user != user && key in Import(table, user, batch) ==> key in table
    decreases |batch|
  {
    if batch != [] {
      ImportKeeps(table, user, batch[..|batch| - 1], key);
    }
  }

  lemma {:induction false} KeysAfterImport(table: Table, user: int, batch: seq<Item>, fingerprint: string)
    ensures Key(user, fingerprint) in Import(table, user, batch) <==>
              Key(user, fingerprint) in table || exists i :: 0 <= i < |batch| && batch[i].fingerprint == fingerprint
    decreases |batch|
  {
    if batch != [] {
      var n := |batch| - 1;
      KeysAfterImport(table, user, batch[..n], fingerprint);
      assert forall i :: 0 <= i < n ==> batch[..n][i] == batch[i];
    }
  }

  /** Some item with the fingerprint of item n is the first. */
  lemma {:induction false} FirstExists(batch: seq<Item>, n: nat)
    requires n < |batch|
    ensures exists i: nat :: i <= n && FirstOf(batch, i, batch[n].fingerprint)
    decreases n
  {
    if j :| 0 <= j < n && batch[j].fingerprint == batch[n].fingerprint {
      FirstExists(batch, j);
    } else {
      assert FirstOf(batch, n, batch[n].fingerprint);
    }
  }

  /** A new row is that of its first item. */
  lemma {:induction false} FirstWins(table: Table, user: int, batch: seq<Item>, i: nat)
    requires i < |batch| && FirstOf(batch, i, batch[i].fingerprint)
    requires Key(user, batch[i].fingerprint) !in table
    ensures
      var key, after := Key(user, batch[i].fingerprint), Import(table, user, batch);
      key in after && after[key] == batch[i].row
    decreases |batch|
  {
    var n := |batch| - 1;
    if i == n {
      KeysAfterImport(table, user, batch[..n], batch[n].fingerprint);
    } else {
      assert batch[..n][i] == batch[i];
      assert FirstOf(batch[..n], i, batch[i].fingerprint);
      FirstWins(table, user, batch[..n], i);
    }
  }

  /** What an import is, said without its loop: rows that were there stay as they are, of any
      user; the new keys are those of the batch; and each new row is its first item's. */
  lemma ImportMeans(table: Table, user: int, batch: seq<Item>)
    ensures
      var after := Import(table, user, batch);
      && (forall key :: key in table ==> key in after && after[key] == table[key])
      && (forall key :: key in after && key !in table <==>
            key !in table && key.user == user && exists i: nat :: FirstOf(batch, i, key.fingerprint))
      && (forall key, i: nat :: key in after && key !in table && FirstOf(batch, i, key.fingerprint) ==>
            after[key] == batch[i].row)
  {
    forall key: Key
      ensures key in table ==> key in Import(table, user, batch) && Import(table, user, batch)[key] == table[key]
      ensures key !in table ==>
                (key in Import(table, user, batch) <==>
                 key.user == user && exists i: nat :: FirstOf(batch, i, key.fingerprint))
    {
      NewKeys(table, user, batch, key);
    }
    forall key, i: nat | key in Import(table, user, batch) && key !in table && FirstOf(batch, i, key.fingerprint)
      ensures Import(table, user, batch)[key] == batch[i].row
    {
      ImportKeeps(table, user, batch, key);
      FirstWins(table, user, batch, i);
    }
  }

  lemma NewKeys(table: Table, user: int, batch: seq<Item>, key: Key)
    ensures key in table ==> key in Import(table, user, batch) && Import(table, user, batch)[key] == table[key]
    ensures key !in table ==>
              (key in Import(table, user, batch) <==>
               key.user == user && exists i: nat :: FirstOf(batch, i, key.fingerprint))
  {
    ImportKeeps(table, user, batch, key);
    if key.user == user {
      KeysAfterImport(table, user, batch, key.fingerprint);
      if i :| 0 <= i < |batch| && batch[i].fingerprint == key.fingerprint {
        FirstExists(batch, i);
      }
    }
  }

  /** The imported count is the number of distinct fingerprints new to the user, and every
      item is counted once. */
  lemma {:induction false} CountsAreExact(table: Table, user: int, batch: seq<Item>)
    ensures
      var c := CountsOf(table, user, batch);
      c.imported == |NewFingerprints(table, user, batch)| && c.imported + c.duplicate == |batch|
    decreases |batch|
  {
    if batch == [] {
      assert NewFingerprints(table, user, batch) == {};
    } else {
      CountsAreExact(table, user, batch[..|batch| - 1]);
      LastItem(table, user, batch);
    }
  }

  /** The last item adds its fingerprint to the new ones just when it is imported. */
  lemma LastItem(table: Table, user: int, batch: seq<Item>)
    requires batch != []
    ensures
      var n := |batch| - 1;
      var all, before := NewFingerprints(table, user, batch), NewFingerprints(table, user, batch[..n]);
      if Key(user, batch[n].fingerprint) in Import(table, user, batch[..n])
      then all == before
      else batch[n].fingerprint !in before && all == before + {batch[n].fingerprint}
  {
    var n := |batch| - 1;
    var f, before := batch[n].fingerprint, NewFingerprints(table, user, batch[..n]);
    KeysAfterImport(table, user, batch[..n], f);
    forall g ensures g in NewFingerprints(table, user, batch) <==>
                       g in before || (g == f && Key(user, f) !in table)
    {
      if i :| 0 <= i < n && batch[i].fingerprint == g {
        assert batch[..n][i] == batch[i];
      }
    }
  }

  function Plus(a: Counts, b: Counts): Counts {
    Counts(a.imported + b.imported, a.duplicate + b.duplicate)
  }

  /** Importing two batches as one gives the rows and the summed counts of importing them in
      turn. */
  lemma {:induction false} ImportsCompose(table: Table, user: int, a: seq<Item>, b: seq<Item>)
    ensures Import(table, user, a + b) == Import(Import(table, user, a), user, b)
    ensures CountsOf(table, user, a + b) == Plus(CountsOf(table, user, a), CountsOf(Import(table, user, a), user, b))
    decreases |b|
  {
    if b == [] {
      assert a + b == a;
    } else {
      var n := |b| - 1;
      assert (a + b)[..|a + b| - 1] == a + b[..n];
      ImportsCompose(table, user, a, b[..n]);
    }
  }

  /** Importing the same batch again changes nothing and counts duplicates only. */
  lemma ReimportIsAllDuplicates(table: Table, user: int, batch: seq<Item>)
    ensures
      var once := Import(table, user, batch);
      Import(once, user, batch) == once && CountsOf(once, user, batch) == Counts(0, |batch|)
  {
    var once := Import(table, user, batch);
    forall i | 0 <= i < |batch|
      ensures Key(user, batch[i].fingerprint) in once
    {
      KeysAfterImport(table, user, batch, batch[i].fingerprint);
    }
    CountsAreExact(once, user, batch);
    assert NewFingerprints(once, user, batch) == {};
    KnownBatchChangesNothing(once, user, batch);
  }

  lemma {:induction false} KnownBatchChangesNothing(table: Table, user: int, batch: seq<Item>)
    requires forall i :: 0 <= i < |batch| ==> Key(user, batch[i].fingerprint) in table
    ensures Import(table, user, batch) == table
    decreases |batch|
  {
    if batch != [] {
      KnownBatchChangesNothing(table, user, batch[..|batch| - 1]);
    }
  }

  // -------------------------------------------------------------- corrections

  datatype Event =
    | Imports(user: int, batch: seq<Item>)
    | Corrects(key: Key, category: string)

  function Step(table: Table, e: Event): Table {
    match e
    case Imports(user, batch) => Import(table, user, batch)
    case Corrects(key, category) => if key in table then table[key := table[key].(category := category)] else table
  }

  function Run(table: Table, events: seq<Event>): Table
    decreases events
  {
    if events == [] then table else Run(Step(table, events[0]), events[1..])
  }

  /** A correction survives any number of imports by anyone, and any correction of other rows:
      the row keeps its category, and everything else it had. */
  lemma {:induction false} CorrectionsSurvive(table: Table, key: Key, category: string, events: seq<Event>)
    requires key in table
    requires forall i :: 0 <= i < |events| && events[i].Corrects? ==> events[i].key != key
    ensures
      var after := Run(Step(table, Corrects(key, category)), events);
      key in after && after[key] == table[key].(category := category)
  {
    RowSurvives(Step(table, Corrects(key, category)), key, events);
  }

  lemma {:induction false} RowSurvives(table: Table, key: Key, events: seq<Event>)
    requires key in table
    requires forall i :: 0 <= i < |events| && events[i].Corrects? ==> events[i].key != key
    ensures key in Run(table, events) && Run(table, events)[key] == table[key]
    decreases events
  {
    if events != [] {
      if events[0].Imports? {
        ImportMeans(table, events[0].user, events[0].batch);
      }
      RowSurvives(Step(table, events[0]), key, events[1..]);
    }
  }

  /** One user's imports and corrections never touch another user's rows. */
  lemma {:induction false} OtherUsersUntouched(table: Table, user: int, events: seq<Event>, key: Key)
    requires key.user != user
    requires forall i :: 0 <= i < |events| ==>
               if events[i].Imports? then events[i].user == user else events[i].key.user == user
    ensures key in Run(table, events) <==> key in table
    ensures key in table ==> Run(table, events)[key] == table[key]
    decreases events
  {
    if events != [] {
      if events[0].Imports? {
        ImportMeans(table, user, events[0].batch);
      }
      OtherUsersUntouched(Step(table, events[0]), user, events[1..], key);
    }
  }

  // ------------------------------------------------------------------ adapter

  class Repository {
    var table: Table
    var rules: map<(int, string), string>    // merchant_rules

    /** One transaction: all of the batch, or on a database error nothing. */
    method ImportTransactions(user: int, batch: seq<Item>) returns (r: Result<Counts, string>)
      modifies this`table
      ensures r.Ok? ==> table == Import(old(table), user, batch) && r.value == CountsOf(old(table), user, batch)
      ensures r.Err? ==> table == old(table)
    {
      var working := table;
      var imported, duplicate := 0, 0;
      for i := 0 to |batch|
        invariant working == Import(table, user, batch[..i])
        invariant Counts(imported, duplicate) == CountsOf(table, user, batch[..i])
      {
        if * {
          return Err("database");
        }
        assert batch[..i + 1][..i] == batch[..i];
        var key := Key(user, batch[i].fingerprint);
        if key in working {
          duplicate := duplicate + 1;
        } else {
          working := working[key := batch[i].row];
          imported := imported + 1;
        }
      }
      if * {
        return Err("commit");
      }
      assert batch[..|batch|] == batch;
      table := working;
      return Ok(Counts(imported, duplicate));
    }

    /** The user's correction, and the rule for the merchant if it is to be remembered.  These
        are separate statements: an error may leave the correction without the rule. */
    method UpdateTransactionCategory(key: Key, category: string, remember: bool) returns (r: Result<Row, string>)
      modifies this
      ensures table == old(table) || table == Step(old(table), Corrects(key, category))
      ensures key !in old(table) ==> r.Err?
      ensures r.Ok? ==> table == Step(old(table), Corrects(key, category)) && r.value == table[key]
      ensures rules == if r.Ok? && remember then old(rules)[(key.user, r.value.merchant) := category] else old(rules)
    {
      if * {
        return Err("database");
      }
      if key !in table {
        return Err("not found");
      }
      table := table[key := table[key].(category := category)];
      if * {
        return Err("database");
      }
      var row := table[key];
      if remember {
        if * {
          return Err("database");
        }
        rules := rules[(key.user, row.merchant) := category];
      }
      return Ok(row);
    }
  }
}
