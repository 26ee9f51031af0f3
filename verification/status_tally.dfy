/** Counting rows by status, as the order lists' tabs do with
    `rows.filter((r) => r.status === s).length`. */
module StatusTally {
  import opened MockData
  import Seqs

  /** The number of rows whose status is `st`. */
  function CountStatus<T(!new)>(rows: seq<T>, statusOf: T -> Status, st: Status): nat {
    |Seqs.Filter(rows, (x: T) => statusOf(x) == st)|
  }

  /** The rows whose status is postponed or cancelled: the "other" tab. */
  function Others<T(!new)>(rows: seq<T>, statusOf: T -> Status): (r: seq<T>)
    ensures forall x :: x in r <==> x in rows && statusOf(x) in {Reporte, Annule}
  {
    Seqs.Filter(rows, (x: T) => statusOf(x) in {Reporte, Annule})
  }

  /** The "other" tab holds each postponed or cancelled row as often as the
      rows do, and keeps their order. */
  lemma {:induction false} OthersFilter<T(!new)>(rows: seq<T>, more: seq<T>, statusOf: T -> Status)
    ensures forall x :: multiset(Others(rows, statusOf))[x]
                        == if statusOf(x) in {Reporte, Annule} then multiset(rows)[x] else 0
    ensures Others(rows + more, statusOf) == Others(rows, statusOf) + Others(more, statusOf)
  {
    Seqs.FilterMultiplicity(rows, (x: T) => statusOf(x) in {Reporte, Annule});
    Seqs.FilterConcat(rows, more, (x: T) => statusOf(x) in {Reporte, Annule});
  }

  /** A count is at most the number of rows, and zero exactly when no row
      has that status. */
  lemma CountStatusBounds<T(!new)>(rows: seq<T>, statusOf: T -> Status, st: Status)
    ensures CountStatus(rows, statusOf, st) <= |rows|
    ensures CountStatus(rows, statusOf, st) == 0 <==> forall x :: x in rows ==> statusOf(x) != st
  {
    var kept := Seqs.Filter(rows, (x: T) => statusOf(x) == st);
    if kept != [] {
      assert kept[0] in kept;
    }
  }

  /** Removing the first row removes one from its own status's count only. */
  lemma CountStatusCons<T(!new)>(rows: seq<T>, statusOf: T -> Status, st: Status)
    requires rows != []
    ensures CountStatus(rows, statusOf, st)
            == (if statusOf(rows[0]) == st then 1 else 0) + CountStatus(rows[1..], statusOf, st)
  {
  }

  /** The five status counts add up to the number of rows. */
  lemma {:induction false} CountsPartition<T(!new)>(rows: seq<T>, statusOf: T -> Status)
    ensures CountStatus(rows, statusOf, EnAttente) + CountStatus(rows, statusOf, EnCours)
            + CountStatus(rows, statusOf, Termine) + CountStatus(rows, statusOf, Reporte)
            + CountStatus(rows, statusOf, Annule) == |rows|
  {
    if rows != [] {
      CountsPartition(rows[1..], statusOf);
      CountStatusCons(rows, statusOf, EnAttente);
      CountStatusCons(rows, statusOf, EnCours);
      CountStatusCons(rows, statusOf, Termine);
      CountStatusCons(rows, statusOf, Reporte);
      CountStatusCons(rows, statusOf, Annule);
    }
  }

  /** The "other" tab holds exactly the postponed rows and the cancelled rows. */
  lemma {:induction false} OthersCount<T(!new)>(rows: seq<T>, statusOf: T -> Status)
    ensures |Others(rows, statusOf)| == CountStatus(rows, statusOf, Reporte) + CountStatus(rows, statusOf, Annule)
  {
    if rows != [] {
      OthersCount(rows[1..], statusOf);
      CountStatusCons(rows, statusOf, Reporte);
      CountStatusCons(rows, statusOf, Annule);
    }
  }
}
