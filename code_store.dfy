/** The verification-code store of `DatabaseService`: codes live in a SQL table while the
    connection works, and in an in-memory list from the first failure on. Time is the
    integer `now` in milliseconds; each durable call either succeeds or throws, and
    `fails` says which. The durable table is an abstract sequence of rows. */
module CodeStore {
  import opened Wrappers
  import opened Text
  import opened Codes

  datatype VerificationCode = VerificationCode(id: int, code: string, createdAt: int, expiresAt: int)

  /** Created less than five days before `now`: what the sweep keeps and what validation accepts. */
  predicate Live(c: VerificationCode, now: int) {
    c.createdAt > now - Ttl
  }

  /** `codes.filter(c => c.createdAt > cutoff)`. */
  function Sweep(s: seq<VerificationCode>, now: int): (r: seq<VerificationCode>)
    ensures |r| <= |s|
    ensures forall i :: 0 <= i < |r| ==> Live(r[i], now)
  {
    if s == [] then []
    else (if Live(s[0], now) then [s[0]] else []) + Sweep(s[1..], now)
  }

  /** The sweep keeps exactly the live records. */
  lemma {:induction false} SweepMembers(s: seq<VerificationCode>, now: int)
    ensures forall c :: c in Sweep(s, now) <==> c in s && Live(c, now)
  {
    if s != [] {
      SweepMembers(s[1..], now);
      assert forall c :: c in s <==> c == s[0] || c in s[1..];
    }
  }

  /** The sweep works record by record, so it keeps the original order. */
  lemma {:induction false} SweepAppend(a: seq<VerificationCode>, b: seq<VerificationCode>, now: int)
    ensures Sweep(a + b, now) == Sweep(a, now) + Sweep(b, now)
  {
    if a == [] {
      assert a + b == b;
    } else {
      assert (a + b)[1..] == a[1..] + b;
      SweepAppend(a[1..], b, now);
    }
  }

  /** A list of live records is left as it is. */
  lemma {:induction false} SweepAllLive(s: seq<VerificationCode>, now: int)
    requires forall i :: 0 <= i < |s| ==> Live(s[i], now)
    ensures Sweep(s, now) == s
  {
    if s != [] {
      SweepAllLive(s[1..], now);
      assert [s[0]] + s[1..] == s;
    }
  }

  /** Sweeping twice at the same time is sweeping once. */
  lemma SweepIdempotent(s: seq<VerificationCode>, now: int)
    ensures Sweep(Sweep(s, now), now) == Sweep(s, now)
  {
    SweepAllLive(Sweep(s, now), now);
  }

  /** What `findIndex` and the `SELECT` look for: the code, created within five days. */
  predicate Matches(c: VerificationCode, code: string, now: int) {
    c.code == code && Live(c, now)
  }

  /** `findIndex`: the first matching position, or -1. */
  function FindIndex(s: seq<VerificationCode>, code: string, now: int): (k: int)
    ensures -1 <= k < |s|
    ensures k == -1 <==> forall i :: 0 <= i < |s| ==> !Matches(s[i], code, now)
    ensures k >= 0 ==> Matches(s[k], code, now) && forall i :: 0 <= i < k ==> !Matches(s[i], code, now)
  {
    if s == [] then -1
    else if Matches(s[0], code, now) then 0
    else
      var k := FindIndex(s[1..], code, now);
      if k == -1 then -1 else k + 1
  }

  /** The `findIndex` loop: scan from the front and stop at the first match. */
  method FirstMatch(s: seq<VerificationCode>, code: string, now: int) returns (k: int)
    ensures k == FindIndex(s, code, now)
  {
    k := -1;
    var i := 0;
    while i < |s|
      invariant 0 <= i <= |s|
      invariant forall j :: 0 <= j < i ==> !Matches(s[j], code, now)
    {
      if s[i].code == code && s[i].createdAt > now - Ttl {
        FirstIndexUnique(s, code, now, i);
        return i;
      }
      i := i + 1;
    }
  }

  /** The first matching position is unique, so it is the one `FindIndex` names. */
  lemma FirstIndexUnique(s: seq<VerificationCode>, code: string, now: int, k: nat)
    requires k < |s| && Matches(s[k], code, now)
    requires forall j :: 0 <= j < k ==> !Matches(s[j], code, now)
    ensures k == FindIndex(s, code, now)
  {
  }

  /** Removing one record keeps every other one, so a second live copy of the same code
      stays valid. */
  lemma RemoveKeepsOthers(s: seq<VerificationCode>, k: nat, j: nat)
    requires k < |s| && j < |s| && j != k
    ensures s[j] in Remove(s, k)
  {
    if j < k {
      assert Remove(s, k)[j] == s[j];
    } else {
      assert Remove(s, k)[j - 1] == s[j];
    }
  }

  /** A validation that consumes the first live copy of a code leaves any other live copy
      valid for the next validation. */
  lemma DuplicateStaysValid(s: seq<VerificationCode>, code: string, now: int, j: nat)
    requires j < |s| && Matches(s[j], code, now) && j != FindIndex(s, code, now)
    ensures FindIndex(s, code, now) >= 0
    ensures FindIndex(Remove(s, FindIndex(s, code, now)), code, now) >= 0
  {
    var k := FindIndex(s, code, now);
    RemoveKeepsOthers(s, k, j);
    var r := Remove(s, k);
    var i :| 0 <= i < |r| && r[i] == s[j];
    assert Matches(r[i], code, now);
  }

  /** `DELETE ... WHERE id = $1`. */
  function DeleteId(s: seq<VerificationCode>, id: int): seq<VerificationCode> {
    if s == [] then []
    else (if s[0].id == id then [] else [s[0]]) + DeleteId(s[1..], id)
  }

  /** Ids strictly increasing along the list, all below `next`. */
  predicate Ordered(s: seq<VerificationCode>, next: int) {
    && (forall i, j :: 0 <= i < j < |s| ==> s[i].id < s[j].id)
    && (forall i :: 0 <= i < |s| ==> s[i].id < next)
  }

  /** With distinct ids, deleting the id of one record removes that record and no other. */
  lemma {:induction false} DeleteIdRemoves(s: seq<VerificationCode>, next: int, k: nat)
    requires Ordered(s, next) && k < |s|
    ensures DeleteId(s, s[k].id) == Remove(s, k)
  {
    var t := s[1..];
    OrderedTail(s, next);
    if k == 0 {
      assert forall i :: 0 <= i < |t| ==> t[i].id != s[0].id;
      DeleteNone(t, s[0].id);
      assert Remove(s, 0) == t;
    } else {
      assert s[k] == t[k - 1];
      assert s[0].id != s[k].id;
      DeleteIdRemoves(t, next, k - 1);
      RemoveCons(s, k);
    }
  }

  lemma OrderedTail(s: seq<VerificationCode>, next: int)
    requires Ordered(s, next) && s != []
    ensures Ordered(s[1..], next)
  {
    assert forall i :: 0 <= i < |s| - 1 ==> s[1..][i] == s[i + 1];
  }

  lemma RemoveCons(s: seq<VerificationCode>, k: nat)
    requires 0 < k < |s|
    ensures Remove(s, k) == [s[0]] + Remove(s[1..], k - 1)
  {
  }

  lemma {:induction false} DeleteNone(s: seq<VerificationCode>, id: int)
    requires forall i :: 0 <= i < |s| ==> s[i].id != id
    ensures DeleteId(s, id) == s
  {
    if s != [] {
      DeleteNone(s[1..], id);
      assert [s[0]] + s[1..] == s;
    }
  }

  lemma {:induction false} SweepOrdered(s: seq<VerificationCode>, next: int, now: int)
    requires Ordered(s, next)
    ensures Ordered(Sweep(s, now), next)
  {
    SweepMembers(s, now);
    if s != [] {
      SweepOrdered(s[1..], next, now);
      SweepMembers(s[1..], now);
    }
  }

  lemma RemoveOrdered(s: seq<VerificationCode>, next: int, k: nat)
    requires Ordered(s, next) && k < |s|
    ensures Ordered(Remove(s, k), next)
  {
    var r := Remove(s, k);
    assert forall i :: 0 <= i < |r| ==> r[i] == if i < k then s[i] else s[i + 1];
  }

  lemma AppendOrdered(s: seq<VerificationCode>, next: int, c: VerificationCode)
    requires Ordered(s, next) && c.id == next
    ensures Ordered(s + [c], next + 1)
  {
  }

  /** The record an issue at `now` appends. */
  function Issued(id: int, code: string, now: int): (c: VerificationCode)
    ensures Live(c, now)
  {
    VerificationCode(id, code, now, now + Ttl)
  }

  /** The ten seeded rows, numbered on from `first`. */
  function SeedRows(codes: seq<string>, first: int, now: int): (r: seq<VerificationCode>)
    ensures |r| == |codes|
    ensures forall i :: 0 <= i < |r| ==> r[i] == Issued(first + i, codes[i], now)
  {
    seq(|codes|, i requires 0 <= i < |codes| => Issued(first + i, codes[i], now))
  }

  /** `DELETE ... WHERE created_at < CURRENT_TIMESTAMP - INTERVAL '5 days'`. */
  function Purge(s: seq<VerificationCode>, now: int): (r: seq<VerificationCode>)
    ensures forall c :: c in r <==> c in s && c.createdAt >= now - Ttl
  {
    if s == [] then []
    else (if s[0].createdAt >= now - Ttl then [s[0]] else []) + Purge(s[1..], now)
  }

  /** The durable sweep and the durable check disagree on a row created exactly five days
      ago: the sweep keeps it and validation no longer accepts it. */
  lemma PurgeBoundary(c: VerificationCode, now: int)
    requires c.createdAt == now - Ttl
    ensures c in Purge([c], now) && !Live(c, now)
  {
  }

  // ---------------------------------------------------------------------------------
  // The seeding query: `VALUES ($1, …), ($2, …), …`, one tuple per code

  function Tuple(k: nat): string {
    "($" + NatToString(k) + ", CURRENT_TIMESTAMP + INTERVAL '5 days')"
  }

  function ValuesClause(codes: seq<string>): string {
    Join(seq(|codes|, i requires 0 <= i < |codes| => Tuple(i + 1)), ", ")
  }

  /** The number after `($`, read back. */
  function PlaceholderOf(t: string): Option<nat> {
    if |t| >= 2 && t[0] == '(' && t[1] == '$' then
      var e := SkipWhile(t, 2, IsDigit);
      if e > 2 then Some(DigitsValue(t[2..e])) else None
    else None
  }

  /** Every tuple carries the placeholder of its own position. */
  lemma PlaceholderRoundTrip(k: nat)
    ensures PlaceholderOf(Tuple(k)) == Some(k)
  {
    var d := NatToString(k);
    var t := Tuple(k);
    assert t == "($" + d + ", CURRENT_TIMESTAMP + INTERVAL '5 days')";
    assert forall i :: 2 <= i < 2 + |d| ==> t[i] == d[i - 2];
    SkipWhileExact(t, 2, 2 + |d|, IsDigit);
    assert t[2..2 + |d|] == d;
    NatToStringRoundTrip(k);
  }

  /** The clause holds one tuple per code, the tuple at position `i` naming `$i+1`. */
  lemma ValuesPlaceholders(codes: seq<string>)
    ensures var ts := seq(|codes|, i requires 0 <= i < |codes| => Tuple(i + 1));
      && ValuesClause(codes) == Join(ts, ", ") && |ts| == |codes|
      && forall i :: 0 <= i < |ts| ==> PlaceholderOf(ts[i]) == Some(i + 1)
  {
    var ts := seq(|codes|, i requires 0 <= i < |codes| => Tuple(i + 1));
    assert ValuesClause(codes) == Join(ts, ", ");
    forall i | 0 <= i < |ts|
      ensures PlaceholderOf(ts[i]) == Some(i + 1)
    {
      assert ts[i] == Tuple(i + 1);
      PlaceholderRoundTrip(i + 1);
    }
  }

  // ---------------------------------------------------------------------------------
  // The service object

  class DatabaseService {
    /** `pool !== null`. */
    var pool: bool
    var useMemoryStorage: bool
    var memoryCodes: seq<VerificationCode>
    var nextId: int
    /** The `verification_codes` table and its `SERIAL` counter. */
    var table: seq<VerificationCode>
    var serial: int

    predicate Valid()
      reads this
    {
      && nextId >= 1 && Ordered(memoryCodes, nextId) && Ordered(table, serial)
      && (useMemoryStorage ==> !pool)
    }

    /** Whether calls take the memory path: `this.useMemoryStorage || !this.pool`. */
    predicate OnMemory()
      reads this
    {
      useMemoryStorage || !pool
    }

    /** `new Pool(...)` either succeeds (`poolCreated`) or throws, which switches to
        memory at once. The table is whatever the database already holds. */
    constructor (poolCreated: bool, rows: seq<VerificationCode>, next: int)
      requires Ordered(rows, next)
      ensures Valid()
      ensures pool == poolCreated && useMemoryStorage == !poolCreated
      ensures memoryCodes == [] && nextId == 1 && table == rows && serial == next
    {
      pool := poolCreated;
      useMemoryStorage := !poolCreated;
      memoryCodes := [];
      nextId := 1;
      table := rows;
      serial := next;
    }

    /** Connect, create the table and seed it; any failure switches to memory for good. */
    method InitDatabase(draws: seq<int>, now: int, fails: bool)
      requires Valid()
      requires |draws| == 10 && forall i :: 0 <= i < 10 ==> IsDraw(draws[i])
      modifies this`pool, this`useMemoryStorage, this`table, this`serial
      ensures Valid()
      ensures !old(pool) ==>
        pool == old(pool) && useMemoryStorage == old(useMemoryStorage) && table == old(table) && serial == old(serial)
      ensures old(pool) && fails ==> useMemoryStorage && !pool && table == old(table) && serial == old(serial)
      ensures old(pool) && !fails ==> pool && useMemoryStorage == old(useMemoryStorage)
      ensures old(pool) && !fails && old(table) == [] ==>
        table == SeedRows(seq(10, i requires 0 <= i < 10 => CodeOf(draws[i])), old(serial), now)
        && serial == old(serial) + 10
      ensures old(pool) && !fails && old(table) != [] ==> table == old(table) && serial == old(serial)
    {
      if !pool {
        return;
      }
      if fails {
        useMemoryStorage := true;
        pool := false;
        return;
      }
      InitializeVerificationCodes(draws, now);
    }

    /** Ten fresh codes when the table is empty, nothing otherwise. */
    method InitializeVerificationCodes(draws: seq<int>, now: int)
      requires Valid()
      requires |draws| == 10 && forall i :: 0 <= i < 10 ==> IsDraw(draws[i])
      modifies this`table, this`serial
      ensures Valid()
      ensures old(table) == [] ==>
        table == SeedRows(seq(10, i requires 0 <= i < 10 => CodeOf(draws[i])), old(serial), now)
        && serial == old(serial) + 10
      ensures old(table) != [] ==> table == old(table) && serial == old(serial)
    {
      if |table| == 0 {
        var codes: seq<string> := [];
        for i := 0 to 10
          invariant codes == seq(i, k requires 0 <= k < i => CodeOf(draws[k]))
        {
          codes := codes + [CodeOf(draws[i])];
        }
        table := SeedRows(codes, serial, now);
        serial := serial + 10;
      }
    }

    /** `generateAndStoreCode`: on the memory path the code is appended and the list swept;
        on the durable path it is inserted. A durable failure switches to memory and runs
        the whole call again, which draws `retryDraw`. */
    method GenerateAndStoreCode(draw: int, retryDraw: int, now: int, fails: bool) returns (code: string)
      requires Valid() && IsDraw(draw) && IsDraw(retryDraw)
      modifies this`pool, this`useMemoryStorage, this`memoryCodes, this`nextId, this`table, this`serial
      ensures Valid()
      ensures old(useMemoryStorage) ==> useMemoryStorage
      ensures old(OnMemory()) ==>
        && code == CodeOf(draw)
        && memoryCodes == Sweep(old(memoryCodes), now) + [Issued(old(nextId), code, now)]
        && nextId == old(nextId) + 1 && table == old(table) && serial == old(serial)
        && pool == old(pool) && useMemoryStorage == old(useMemoryStorage)
      ensures !old(OnMemory()) && fails ==>
        && code == CodeOf(retryDraw) && useMemoryStorage && !pool
        && memoryCodes == Sweep(old(memoryCodes), now) + [Issued(old(nextId), code, now)]
        && nextId == old(nextId) + 1 && table == old(table) && serial == old(serial)
      ensures !old(OnMemory()) && !fails ==>
        && code == CodeOf(draw)
        && table == old(table) + [Issued(old(serial), code, now)] && serial == old(serial) + 1
        && memoryCodes == old(memoryCodes) && nextId == old(nextId) && pool && !useMemoryStorage
    {
      if OnMemory() {
        code := IssueToMemory(draw, now);
        return;
      }
      if fails {
        useMemoryStorage := true;
        pool := false;
        code := IssueToMemory(retryDraw, now);
        return;
      }
      code := CodeOf(draw);
      table := table + [Issued(serial, code, now)];
      serial := serial + 1;
    }

    /** The memory path of an issue: push the record, then sweep. The new record is live,
        so it survives the sweep of the same call. */
    method IssueToMemory(draw: int, now: int) returns (code: string)
      requires Valid() && IsDraw(draw)
      modifies this`memoryCodes, this`nextId
      ensures Valid()
      ensures code == CodeOf(draw) && nextId == old(nextId) + 1
      ensures memoryCodes == Sweep(old(memoryCodes), now) + [Issued(old(nextId), code, now)]
    {
      code := CodeOf(draw);
      var c := Issued(nextId, code, now);
      AppendOrdered(memoryCodes, nextId, c);
      memoryCodes := memoryCodes + [c];
      nextId := nextId + 1;
      SweepAppend(old(memoryCodes), [c], now);
      CleanupExpiredMemoryCodes(now);
    }

    /** `verifyCode`: a live matching row is consumed. A durable failure switches to
        memory and answers from the memory list. */
    method VerifyCode(code: string, now: int, fails: bool) returns (ok: bool)
      requires Valid()
      modifies this`pool, this`useMemoryStorage, this`memoryCodes, this`table
      ensures Valid()
      ensures old(useMemoryStorage) ==> useMemoryStorage
      ensures old(OnMemory()) ==> useMemoryStorage == old(useMemoryStorage) && pool == old(pool) && table == old(table)
      ensures !old(OnMemory()) && fails ==> useMemoryStorage && !pool && table == old(table)
      ensures old(OnMemory()) || fails ==>
        var swept := Sweep(old(memoryCodes), now);
        var k := FindIndex(swept, code, now);
        && ok == (k >= 0)
        && memoryCodes == (if k >= 0 then Remove(swept, k) else swept)
      ensures !old(OnMemory()) && !fails ==>
        var k := FindIndex(old(table), code, now);
        && ok == (k >= 0)
        && table == (if k >= 0 then Remove(old(table), k) else old(table))
        && memoryCodes == old(memoryCodes) && pool && !useMemoryStorage
    {
      if OnMemory() {
        ok := VerifyCodeFromMemory(code, now);
        return;
      }
      if fails {
        useMemoryStorage := true;
        pool := false;
        ok := VerifyCodeFromMemory(code, now);
        return;
      }
      var k := FindIndex(table, code, now);
      if k >= 0 {
        DeleteIdRemoves(table, serial, k);
        RemoveOrdered(table, serial, k);
        table := DeleteId(table, table[k].id);
        ok := true;
      } else {
        ok := false;
      }
    }

    /** Sweep, look for the first live record with the code and splice it out. */
    method VerifyCodeFromMemory(code: string, now: int) returns (ok: bool)
      requires Valid()
      modifies this`memoryCodes
      ensures Valid()
      ensures var swept := Sweep(old(memoryCodes), now);
        var k := FindIndex(swept, code, now);
        && ok == (k >= 0)
        && memoryCodes == (if k >= 0 then Remove(swept, k) else swept)
    {
      CleanupExpiredMemoryCodes(now);
      var k := FirstMatch(memoryCodes, code, now);
      if k != -1 {
        RemoveOrdered(memoryCodes, nextId, k);
        memoryCodes := Remove(memoryCodes, k);
        ok := true;
      } else {
        ok := false;
      }
    }

    method CleanupExpiredMemoryCodes(now: int)
      requires Valid()
      modifies this`memoryCodes
      ensures Valid()
      ensures memoryCodes == Sweep(old(memoryCodes), now)
    {
      SweepOrdered(memoryCodes, nextId, now);
      memoryCodes := Sweep(memoryCodes, now);
    }

    /** `cleanupExpiredCodes`: the memory sweep, or the durable delete, whose failure is
        only logged. */
    method CleanupExpiredCodes(now: int, fails: bool)
      requires Valid()
      modifies this`memoryCodes, this`table
      ensures Valid()
      ensures old(OnMemory()) ==> memoryCodes == Sweep(old(memoryCodes), now) && table == old(table)
      ensures !old(OnMemory()) ==> memoryCodes == old(memoryCodes)
      ensures !old(OnMemory()) && fails ==> table == old(table)
      ensures !old(OnMemory()) && !fails ==> table == Purge(old(table), now)
    {
      if OnMemory() {
        CleanupExpiredMemoryCodes(now);
        return;
      }
      if !fails {
        PurgeOrdered(table, serial, now);
        table := Purge(table, now);
      }
    }
  }

  lemma {:induction false} PurgeOrdered(s: seq<VerificationCode>, next: int, now: int)
    requires Ordered(s, next)
    ensures Ordered(Purge(s, now), next)
  {
    if s != [] {
      var t := Purge(s[1..], now);
      PurgeOrdered(s[1..], next, now);
      assert forall c :: c in s[1..] ==> c.id > s[0].id;
      if s[0].createdAt >= now - Ttl {
        OrderedCons(s[0], t, next);
      } else {
        assert Purge(s, now) == t;
      }
    }
  }

  /** A record below everything after it, and below the counter, keeps the order. */
  lemma OrderedCons(h: VerificationCode, t: seq<VerificationCode>, next: int)
    requires Ordered(t, next) && h.id < next
    requires forall c :: c in t ==> c.id > h.id
    ensures Ordered([h] + t, next)
  {
    assert forall j :: 0 <= j < |t| ==> t[j] in t;
  }
}
