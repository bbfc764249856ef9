/** The Prisma variant of the verification-code store (`PrismaDatabaseService`): one table
    of rows, checked against their expiry time rather than their creation time. The table
    is an abstract sequence of rows with an autoincrement counter; each Prisma call either
    succeeds or throws, and a `fails` flag says which. */
module PrismaStore {
  import opened Wrappers
  import opened Text
  import opened Codes

  datatype Row = Row(id: int, code: string, expiresAt: int)

  /** `expiresAt: { gt: now }`. */
  predicate Unexpired(r: Row, now: int) {
    r.expiresAt > now
  }

  /** `findFirst({ where: { code, expiresAt: { gt: now } } })`: the first row in table order. */
  function FindFirst(rows: seq<Row>, code: string, now: int): (k: int)
    ensures -1 <= k < |rows|
    ensures k == -1 <==> forall i :: 0 <= i < |rows| ==> !(rows[i].code == code && Unexpired(rows[i], now))
    ensures k >= 0 ==> rows[k].code == code && Unexpired(rows[k], now)
    ensures k >= 0 ==> forall i :: 0 <= i < k ==> !(rows[i].code == code && Unexpired(rows[i], now))
  {
    if rows == [] then -1
    else if rows[0].code == code && Unexpired(rows[0], now) then 0
    else
      var k := FindFirst(rows[1..], code, now);
      if k == -1 then -1 else k + 1
  }

  /** `deleteMany({ where: { expiresAt: { lte: now } } })`. */
  function DeleteExpired(rows: seq<Row>, now: int): (r: seq<Row>)
    ensures |r| <= |rows|
  {
    if rows == [] then []
    else (if rows[0].expiresAt <= now then [] else [rows[0]]) + DeleteExpired(rows[1..], now)
  }

  /** The sweep removes exactly the rows that have expired, and every row it keeps passes
      the time test of `verifyCode` at the same `now`. */
  lemma {:induction false} DeleteExpiredSpec(rows: seq<Row>, now: int)
    ensures forall r :: r in DeleteExpired(rows, now) <==> r in rows && Unexpired(r, now)
  {
    if rows != [] {
      DeleteExpiredSpec(rows[1..], now);
      assert forall r :: r in rows <==> r == rows[0] || r in rows[1..];
    }
  }

  /** Ids strictly increasing along the table, all below the autoincrement counter. */
  predicate Ordered(rows: seq<Row>, next: int) {
    && (forall i, j :: 0 <= i < j < |rows| ==> rows[i].id < rows[j].id)
    && (forall i :: 0 <= i < |rows| ==> rows[i].id < next)
  }

  lemma RemoveOrdered(rows: seq<Row>, next: int, k: nat)
    requires Ordered(rows, next) && k < |rows|
    ensures Ordered(Remove(rows, k), next)
  {
  }

  lemma {:induction false} DeleteExpiredOrdered(rows: seq<Row>, next: int, now: int)
    requires Ordered(rows, next)
    ensures Ordered(DeleteExpired(rows, now), next)
  {
    if rows != [] {
      DeleteExpiredOrdered(rows[1..], next, now);
      DeleteExpiredAbove(rows[1..], rows[0].id, now);
    }
  }

  lemma {:induction false} DeleteExpiredAbove(rows: seq<Row>, lo: int, now: int)
    requires forall i :: 0 <= i < |rows| ==> rows[i].id > lo
    ensures forall i :: 0 <= i < |DeleteExpired(rows, now)| ==> DeleteExpired(rows, now)[i].id > lo
  {
    if rows != [] {
      DeleteExpiredAbove(rows[1..], lo, now);
    }
  }

  /** The rows `createMany` or `create` adds at `now`, with ids from `first` on. */
  function NewRows(codes: seq<string>, first: int, now: int): (r: seq<Row>)
    ensures |r| == |codes|
    ensures forall i :: 0 <= i < |r| ==> r[i] == Row(first + i, codes[i], now + Ttl)
  {
    seq(|codes|, i requires 0 <= i < |codes| => Row(first + i, codes[i], now + Ttl))
  }

  lemma NewRowsOrdered(rows: seq<Row>, codes: seq<string>, next: int, now: int)
    requires Ordered(rows, next)
    ensures Ordered(rows + NewRows(codes, next, now), next + |codes|)
  {
  }

  /** The ten codes `initDatabase` draws. */
  function SeedCodes(draws: seq<int>): (c: seq<string>)
    requires |draws| == 10 && forall i :: 0 <= i < 10 ==> IsDraw(draws[i])
    ensures |c| == 10 && forall i :: 0 <= i < 10 ==> c[i] == CodeOf(draws[i])
  {
    seq(10, i requires 0 <= i < 10 => CodeOf(draws[i]))
  }

  /** `generateAndStoreCode` either hands back the stored code or throws. */
  datatype Stored = Stored(code: string) | Thrown

  class PrismaDatabaseService {
    var rows: seq<Row>
    var nextId: int

    predicate Valid()
      reads this
    {
      Ordered(rows, nextId)
    }

    constructor (table: seq<Row>, next: int)
      requires Ordered(table, next)
      ensures Valid() && rows == table && nextId == next
    {
      rows := table;
      nextId := next;
    }

    /** Ten fresh codes when the table is empty, nothing otherwise; a failure is only logged. */
    method InitDatabase(draws: seq<int>, now: int, fails: bool)
      requires Valid()
      requires |draws| == 10 && forall i :: 0 <= i < 10 ==> IsDraw(draws[i])
      modifies this
      ensures Valid()
      ensures !fails && old(rows) == [] ==>
        rows == NewRows(SeedCodes(draws), old(nextId), now) && nextId == old(nextId) + 10
      ensures fails || old(rows) != [] ==> rows == old(rows) && nextId == old(nextId)
    {
      if fails {
        return;
      }
      if |rows| == 0 {
        var codes: seq<string> := [];
        for i := 0 to 10
          invariant codes == seq(i, k requires 0 <= k < i => CodeOf(draws[k]))
        {
          codes := codes + [CodeOf(draws[i])];
        }
        assert codes == SeedCodes(draws);
        NewRowsOrdered(rows, codes, nextId, now);
        rows := rows + NewRows(codes, nextId, now);
        nextId := nextId + 10;
      }
    }

    /** Seed if need be, then store one more code; a store failure is rethrown. */
    method GenerateAndStoreCode(seedDraws: seq<int>, draw: int, now: int, seedFails: bool, storeFails: bool)
      returns (result: Stored)
      requires Valid() && IsDraw(draw)
      requires |seedDraws| == 10 && forall i :: 0 <= i < 10 ==> IsDraw(seedDraws[i])
      modifies this
      ensures Valid()
      ensures storeFails ==> result == Thrown
      ensures !storeFails ==> result == Stored(CodeOf(draw))
      ensures var seeded := if !seedFails && old(rows) == [] then NewRows(SeedCodes(seedDraws), old(nextId), now) else [];
        var stored := if storeFails then [] else NewRows([CodeOf(draw)], old(nextId) + |seeded|, now);
        && rows == old(rows) + seeded + stored
        && nextId == old(nextId) + |seeded| + |stored|
    {
      InitDatabase(seedDraws, now, seedFails);
      var code := CodeOf(draw);
      if storeFails {
        return Thrown;
      }
      NewRowsOrdered(rows, [code], nextId, now);
      rows := rows + NewRows([code], nextId, now);
      nextId := nextId + 1;
      result := Stored(code);
    }

    /** A row with the code that has not expired is consumed; an error answers false. */
    method VerifyCode(code: string, now: int, fails: bool) returns (ok: bool)
      requires Valid()
      modifies this`rows
      ensures Valid()
      ensures ok == (!fails && FindFirst(old(rows), code, now) >= 0)
      ensures ok ==> rows == Remove(old(rows), FindFirst(old(rows), code, now))
      ensures !ok ==> rows == old(rows)
    {
      ok := false;
      if !fails {
        var k := FindFirst(rows, code, now);
        if k >= 0 {
          Delete(k);
          ok := true;
        }
      }
    }

    /** `delete({ where: { id } })` of the row at `k`. */
    method Delete(k: nat)
      requires Valid() && k < |rows|
      modifies this`rows
      ensures Valid() && rows == Remove(old(rows), k)
    {
      RemoveOrdered(rows, nextId, k);
      rows := Remove(rows, k);
    }

    /** Delete every expired row; an error is only logged. */
    method CleanupExpiredCodes(now: int, fails: bool)
      requires Valid()
      modifies this`rows
      ensures Valid()
      ensures fails ==> rows == old(rows)
      ensures !fails ==> rows == DeleteExpired(old(rows), now)
    {
      if !fails {
        DeleteExpiredOrdered(rows, nextId, now);
        rows := DeleteExpired(rows, now);
      }
    }
  }

  /** Verification succeeds exactly when some row carries the code and has not expired,
      and then exactly one row is gone. */
  lemma VerifyIff(rows: seq<Row>, code: string, now: int)
    ensures FindFirst(rows, code, now) >= 0 <==> exists i :: 0 <= i < |rows| && rows[i].code == code && Unexpired(rows[i], now)
    ensures FindFirst(rows, code, now) >= 0 ==> |Remove(rows, FindFirst(rows, code, now))| == |rows| - 1
  {
  }

  /** After a sweep every remaining row passes the time test of the check at the same
      time: what the sweep keeps and what the check accepts by time are the same rows. */
  lemma SweptRowsCheck(rows: seq<Row>, now: int, code: string)
    ensures forall r :: r in DeleteExpired(rows, now) ==> Unexpired(r, now)
    ensures (exists i :: 0 <= i < |rows| && rows[i].code == code && Unexpired(rows[i], now))
        <==> FindFirst(DeleteExpired(rows, now), code, now) >= 0
  {
    DeleteExpiredSpec(rows, now);
    var swept := DeleteExpired(rows, now);
    if exists i :: 0 <= i < |rows| && rows[i].code == code && Unexpired(rows[i], now) {
      var i :| 0 <= i < |rows| && rows[i].code == code && Unexpired(rows[i], now);
      assert rows[i] in swept;
      var j :| 0 <= j < |swept| && swept[j] == rows[i];
    }
    if FindFirst(swept, code, now) >= 0 {
      var k := FindFirst(swept, code, now);
      assert swept[k] in rows;
    }
  }
}
