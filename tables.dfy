/** The filter that both mock backends (stock count and ERP) run over their
    record tables: every record whose transaction id equals the one asked
    for, kept in table order. */
module Tables {

  /** The records of `table` whose transaction id (read by `txn`) is `tid`,
      in the order the table holds them. */
  function Matching<T>(table: seq<T>, txn: T -> string, tid: string): (r: seq<T>)
    ensures |r| <= |table|
    ensures forall x :: x in r ==> x in table && txn(x) == tid
  {
    if table == [] then []
    else (if txn(table[0]) == tid then [table[0]] else []) + Matching(table[1..], txn, tid)
  }

  /** Filtering a concatenation filters each half and keeps them in order:
      the result is the table's matching records in table order. */
  lemma {:induction false} MatchingConcat<T>(a: seq<T>, b: seq<T>, txn: T -> string, tid: string)
    ensures Matching(a + b, txn, tid) == Matching(a, txn, tid) + Matching(b, txn, tid)
  {
    if a == [] {
      assert a + b == b;
    } else {
      assert (a + b)[1..] == a[1..] + b;
      MatchingConcat(a[1..], b, txn, tid);
    }
  }

  /** Extending the scanned prefix by one record adds that record exactly
      when it matches (the step of the lookup loops). */
  lemma MatchingSnoc<T>(table: seq<T>, i: nat, txn: T -> string, tid: string)
    requires i < |table|
    ensures Matching(table[..i + 1], txn, tid)
         == Matching(table[..i], txn, tid) + (if txn(table[i]) == tid then [table[i]] else [])
  {
    assert table[..i + 1] == table[..i] + [table[i]];
    MatchingConcat(table[..i], [table[i]], txn, tid);
  }

  /** No matching record is left out. */
  lemma {:induction false} MatchingComplete<T>(table: seq<T>, txn: T -> string, tid: string, k: nat)
    requires k < |table| && txn(table[k]) == tid
    ensures table[k] in Matching(table, txn, tid)
  {
    if k > 0 {
      MatchingComplete(table[1..], txn, tid, k - 1);
    }
  }

  /** The filter is empty exactly when no record of the table matches. */
  lemma MatchingEmptyIff<T>(table: seq<T>, txn: T -> string, tid: string)
    ensures Matching(table, txn, tid) == [] <==> forall k :: 0 <= k < |table| ==> txn(table[k]) != tid
  {
    forall k | 0 <= k < |table| && txn(table[k]) == tid
      ensures Matching(table, txn, tid) != []
    {
      MatchingComplete(table, txn, tid, k);
    }
  }

  /** Filtering again by the same id changes nothing. */
  lemma {:induction false} MatchingIdempotent<T>(table: seq<T>, txn: T -> string, tid: string)
    ensures Matching(Matching(table, txn, tid), txn, tid) == Matching(table, txn, tid)
  {
    if table != [] {
      var head := if txn(table[0]) == tid then [table[0]] else [];
      MatchingConcat(head, Matching(table[1..], txn, tid), txn, tid);
      MatchingIdempotent(table[1..], txn, tid);
    }
  }
}
