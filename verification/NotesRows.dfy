/**
 The notepad's rows and the order its reads and its prune share
 (extensions/notes/note.go, heartbeat.go).

 An id is a number standing for a uuid, in the database's own order of uuids. A
 time is counted in microseconds, as the database keeps it.
 */
module NotesRows {
  import opened Wrappers

  datatype Kind = Note | Heartbeat

  datatype Author = Author(userId: string, isAgent: bool)

  datatype Row = Row(id: nat, kind: Kind, body: string, author: Option<Author>, filed: Option<nat>, created: nat)

  type Table = map<nat, Row>

  /** Every row under its own id. */
  ghost predicate Keyed(t: Table) {
    forall id :: id in t ==> t[id].id == id
  }

  /** The order of every read: newest first, the id breaking ties. */
  predicate Newer(a: Row, b: Row) {
    a.created > b.created || (a.created == b.created && a.id > b.id)
  }

  ghost predicate Distinct(rows: set<Row>) {
    forall a, b :: a in rows && b in rows && a.id == b.id ==> a == b
  }

  function Ahead(rows: set<Row>, r: Row): set<Row> {
    set q | q in rows && Newer(q, r)
  }

  /** The first `limit` rows, newest first: those with fewer than `limit` ahead of them. */
  function Newest(rows: set<Row>, limit: nat): set<Row> {
    set r | r in rows && |Ahead(rows, r)| < limit
  }

  /** One row nothing is behind. */
  lemma {:induction false} OldestExists(rows: set<Row>) returns (oldest: Row)
    requires rows != {} && Distinct(rows)
    ensures oldest in rows && forall r :: r in rows && r != oldest ==> Newer(r, oldest)
    decreases |rows|
  {
    var some :| some in rows;
    oldest := some;
    var others := rows - {some};
    assert forall r :: r in rows && r != some ==> r in others;
    if others != {} {
      var other := OldestExists(others);
      assert some.id != other.id;
      if Newer(some, other) {
        oldest := other;
      }
      forall r | r in rows && r != oldest ensures Newer(r, oldest) {
        assert r == some || r == other || (r in others && Newer(r, other));
      }
    }
  }

  /** A limited read is as long as it can be: the limit, or everything there is. */
  lemma {:induction false} NewestCount(rows: set<Row>, limit: nat)
    requires Distinct(rows)
    ensures |Newest(rows, limit)| == if |rows| < limit then |rows| else limit
    decreases |rows|
  {
    if rows == {} {
      assert Newest(rows, limit) == {};
    } else {
      var oldest := OldestExists(rows);
      var others := rows - {oldest};
      NewestCount(others, limit);
      assert Ahead(rows, oldest) == others;
      forall r | r in others ensures Ahead(rows, r) == Ahead(others, r) {
        assert !Newer(oldest, r);
      }
      if |others| < limit {
        assert Newest(rows, limit) == Newest(others, limit) + {oldest};
      } else {
        assert Newest(rows, limit) == Newest(others, limit);
      }
    }
  }

  /** Nothing a limited read leaves out was written after anything it holds, and of two written at once the larger id is held. */
  lemma NewestAreNewest(rows: set<Row>, limit: nat, kept: Row, dropped: Row)
    requires Distinct(rows) && kept in Newest(rows, limit) && dropped in rows - Newest(rows, limit)
    ensures dropped.created <= kept.created && (dropped.created == kept.created ==> dropped.id < kept.id)
  {
    if !Newer(kept, dropped) {
      assert Newer(dropped, kept);
      assert Ahead(rows, dropped) <= Ahead(rows, kept);
      Smaller(Ahead(rows, dropped), Ahead(rows, kept));
    }
  }

  lemma {:induction false} Smaller<T>(a: set<T>, b: set<T>)
    requires a <= b
    ensures |a| <= |b|
  {
    if a != {} {
      var x :| x in a;
      Smaller(a - {x}, b - {x});
    }
  }

  /** What was written later than everything else is in every read that answers anything. */
  lemma LatestIsNewest(rows: set<Row>, limit: nat, latest: Row)
    requires latest in rows && 0 < limit
    requires forall r :: r in rows && r != latest ==> r.created < latest.created
    ensures latest in Newest(rows, limit)
  {
    assert Ahead(rows, latest) == {};
  }
}
