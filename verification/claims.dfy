/** The claiming query always has an answer, built one oldest row at a time. */
module Claims {
  import opened Domain
  import opened Tables

  function Remaining(outbox: map<Uuid, OutboxEvent>, locked: set<Uuid>, rows: seq<OutboxEvent>): set<Uuid> {
    set id | id in outbox && Claimable(outbox, locked, id) && id !in Ids(rows)
  }

  predicate IsOldest(outbox: map<Uuid, OutboxEvent>, ids: set<Uuid>, id: Uuid)
    requires ids <= outbox.Keys
  {
    id in ids && forall other | other in ids :: outbox[id].createdAt <= outbox[other].createdAt
  }

  lemma {:induction false} OldestExists(outbox: map<Uuid, OutboxEvent>, ids: set<Uuid>)
    requires ids <= outbox.Keys && ids != {}
    ensures exists id :: IsOldest(outbox, ids, id)
  {
    var id :| id in ids;
    if ids == {id} {
      assert IsOldest(outbox, ids, id);
    } else {
      assert ids == {id} + (ids - {id});
      OldestExists(outbox, ids - {id});
      var best :| IsOldest(outbox, ids - {id}, best);
      if outbox[best].createdAt <= outbox[id].createdAt {
        assert IsOldest(outbox, ids, best);
      } else {
        assert IsOldest(outbox, ids, id);
      }
    }
  }

  /** Appending the oldest remaining row to a full claim gives the next larger full claim. */
  lemma NextRow(outbox: map<Uuid, OutboxEvent>, locked: set<Uuid>, rows: seq<OutboxEvent>, id: Uuid)
    requires forall e | e in outbox :: outbox[e].id == e
    requires IsClaim(outbox, locked, |rows|, rows)
    requires IsOldest(outbox, Remaining(outbox, locked, rows), id)
    ensures IsClaim(outbox, locked, |rows| + 1, rows + [outbox[id]])
  {
    var rows' := rows + [outbox[id]];
    assert Ids(rows') == Ids(rows) + {id};
    assert forall k | 0 <= k < |rows| :: rows[k].id in Ids(rows);
    forall other | other in outbox && Claimable(outbox, locked, other) && other !in Ids(rows')
      ensures forall row | row in rows' :: row.createdAt <= outbox[other].createdAt
    {
      assert other in Remaining(outbox, locked, rows);
    }
  }

  /** Once nothing remains, the claim is complete for every larger limit too. */
  lemma NothingRemains(outbox: map<Uuid, OutboxEvent>, locked: set<Uuid>, rows: seq<OutboxEvent>, limit: nat)
    requires IsClaim(outbox, locked, |rows|, rows) && |rows| <= limit
    requires Remaining(outbox, locked, rows) == {} || |rows| == limit
    ensures IsClaim(outbox, locked, limit, rows)
  {
    assert forall id | id in outbox && Claimable(outbox, locked, id) && id !in Ids(rows) ::
        id in Remaining(outbox, locked, rows);
  }

  lemma NothingLeftOut(outbox: map<Uuid, OutboxEvent>, locked: set<Uuid>, rows: seq<OutboxEvent>, limit: nat)
    requires IsClaim(outbox, locked, limit, rows) && |rows| < limit
    ensures IsClaim(outbox, locked, |rows|, rows) && Remaining(outbox, locked, rows) == {}
  {
  }

  lemma {:induction false} ClaimExists(outbox: map<Uuid, OutboxEvent>, locked: set<Uuid>, limit: nat) returns (rows: seq<OutboxEvent>)
    requires forall e | e in outbox :: outbox[e].id == e
    ensures IsClaim(outbox, locked, limit, rows)
    ensures |rows| < limit ==> Remaining(outbox, locked, rows) == {}
  {
    rows := [];
    if limit > 0 {
      rows := ClaimExists(outbox, locked, limit - 1);
      if |rows| == limit - 1 {
        if Remaining(outbox, locked, rows) == {} {
          NothingRemains(outbox, locked, rows, limit);
        } else {
          OldestExists(outbox, Remaining(outbox, locked, rows));
          var id :| IsOldest(outbox, Remaining(outbox, locked, rows), id);
          NextRow(outbox, locked, rows, id);
          rows := rows + [outbox[id]];
        }
      } else {
        assert IsClaim(outbox, locked, |rows|, rows) by { NothingLeftOut(outbox, locked, rows, limit - 1); }
        NothingRemains(outbox, locked, rows, limit);
      }
    }
  }

  // ---- Only ties leave a choice ----

  ghost predicate NoTies(outbox: map<Uuid, OutboxEvent>, locked: set<Uuid>) {
    forall x, y | Claimable(outbox, locked, x) && Claimable(outbox, locked, y) && x != y ::
      outbox[x].createdAt != outbox[y].createdAt
  }

  lemma ProperSubsetIsSmaller(small: set<Uuid>, large: set<Uuid>, x: Uuid)
    requires small <= large && x in large && x !in small
    ensures |small| < |large|
  {
    assert large == small + (large - small) && x in large - small;
  }

  lemma OnlyInOne(outbox: map<Uuid, OutboxEvent>, locked: set<Uuid>, limit: nat, a: seq<OutboxEvent>, b: seq<OutboxEvent>)
    requires IsClaim(outbox, locked, limit, a) && IsClaim(outbox, locked, limit, b)
    requires |Ids(a)| == |a| && |Ids(b)| == |b| && NoTies(outbox, locked)
    ensures Ids(a) <= Ids(b)
  {
    forall x | x in Ids(a) ensures x in Ids(b) {
      var row :| row in a && row.id == x;
      if x !in Ids(b) {
        assert Claimable(outbox, locked, x);
        assert |b| == limit >= |a|;
        if Ids(b) <= Ids(a) {
          ProperSubsetIsSmaller(Ids(b), Ids(a), x);
        }
      }
    }
  }

  lemma {:induction false} DistinctIds(rows: seq<OutboxEvent>)
    requires Distinct(rows)
    ensures |Ids(rows)| == |rows|
  {
    if rows != [] {
      var n := |rows| - 1;
      DistinctIds(rows[..n]);
      assert rows == rows[..n] + [rows[n]];
      assert Ids(rows) == Ids(rows[..n]) + {rows[n].id};
      assert rows[n].id !in Ids(rows[..n]);
    }
  }

  /** Rows of one table in creation order, without ties. */
  predicate Arranged(outbox: map<Uuid, OutboxEvent>, rows: seq<OutboxEvent>) {
    && (forall row | row in rows :: row.id in outbox && outbox[row.id] == row)
    && forall i, j :: 0 <= i < j < |rows| ==> rows[i].createdAt < rows[j].createdAt
  }

  lemma LastIsLatest(outbox: map<Uuid, OutboxEvent>, rows: seq<OutboxEvent>, id: Uuid)
    requires Arranged(outbox, rows) && id in Ids(rows)
    ensures id in outbox && outbox[id].createdAt <= rows[|rows| - 1].createdAt
    ensures id != rows[|rows| - 1].id ==> outbox[id].createdAt < rows[|rows| - 1].createdAt
  {
    var k :| 0 <= k < |rows| && rows[k].id == id;
  }

  lemma WithoutLastRow(outbox: map<Uuid, OutboxEvent>, rows: seq<OutboxEvent>)
    requires Arranged(outbox, rows) && rows != []
    ensures Arranged(outbox, rows[..|rows| - 1])
    ensures Ids(rows[..|rows| - 1]) == Ids(rows) - {rows[|rows| - 1].id}
  {
    var n := |rows| - 1;
    assert rows == rows[..n] + [rows[n]];
    forall row | row in rows[..n] ensures row.id != rows[n].id {
      var k :| 0 <= k < n && rows[k] == row;
      assert outbox[row.id] == row && outbox[rows[n].id] == rows[n];
    }
  }

  lemma {:induction false} OneArrangement(outbox: map<Uuid, OutboxEvent>, a: seq<OutboxEvent>, b: seq<OutboxEvent>)
    requires Arranged(outbox, a) && Arranged(outbox, b) && Ids(a) == Ids(b)
    ensures a == b
  {
    if a == [] {
      assert b != [] ==> b[0].id in Ids(b);
    } else {
      var n := |a| - 1;
      assert a[n].id in Ids(b) && b != [];
      var m := |b| - 1;
      assert b[m].id in Ids(a);
      LastIsLatest(outbox, a, b[m].id);
      LastIsLatest(outbox, b, a[n].id);
      assert a[n] == b[m];
      WithoutLastRow(outbox, a);
      WithoutLastRow(outbox, b);
      OneArrangement(outbox, a[..n], b[..m]);
      assert a == a[..n] + [a[n]] && b == b[..m] + [b[m]];
    }
  }

  lemma ClaimIsArranged(outbox: map<Uuid, OutboxEvent>, locked: set<Uuid>, limit: nat, rows: seq<OutboxEvent>)
    requires IsClaim(outbox, locked, limit, rows) && NoTies(outbox, locked)
    ensures Arranged(outbox, rows)
  {
    forall i, j | 0 <= i < j < |rows| ensures rows[i].createdAt < rows[j].createdAt {
      assert rows[i] in rows && rows[j] in rows;
      assert Claimable(outbox, locked, rows[i].id) && Claimable(outbox, locked, rows[j].id);
    }
  }

  /** When no two claimable rows were created at one time, the claiming query has just one answer. */
  lemma ClaimIsUnique(outbox: map<Uuid, OutboxEvent>, locked: set<Uuid>, limit: nat, a: seq<OutboxEvent>, b: seq<OutboxEvent>)
    requires IsClaim(outbox, locked, limit, a) && IsClaim(outbox, locked, limit, b) && NoTies(outbox, locked)
    ensures a == b
  {
    DistinctIds(a);
    DistinctIds(b);
    OnlyInOne(outbox, locked, limit, a, b);
    OnlyInOne(outbox, locked, limit, b, a);
    ClaimIsArranged(outbox, locked, limit, a);
    ClaimIsArranged(outbox, locked, limit, b);
    OneArrangement(outbox, a, b);
  }
}
