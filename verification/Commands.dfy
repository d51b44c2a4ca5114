/** The table of reset commands in internal/db/counter.go: every outcome is
recorded under its id, and old records are pruned by age and by count. */
module Commands {
  import opened Prelude

  const RETENTION := 30 * 24 * 3600
  const CAP := 10000

  datatype Verdict = Ok | Busy

  datatype Command = Command(verdict: Verdict, createdAt: int)

  type Table = map<string, Command>

  // The order of "created_at DESC, id DESC": x comes before y.
  predicate Newer(t: Table, x: string, y: string)
    requires x in t && y in t
  {
    t[y].createdAt < t[x].createdAt || (t[y].createdAt == t[x].createdAt && Before(y, x))
  }

  // The rows that come before id in that order.
  function Ahead(t: Table, id: string): set<string>
    requires id in t
  {
    set x | x in t && Newer(t, x, id)
  }

  function Unexpired(t: Table, now: int, keep: string): Table {
    map x | x in t && (x == keep || now - RETENTION <= t[x].createdAt) :: t[x]
  }

  function Capped(t: Table, keep: string): Table {
    map x | x in t && (x == keep || |Ahead(t, x)| < CAP) :: t[x]
  }

  function Pruned(t: Table, now: int, keep: string): Table {
    Capped(Unexpired(t, now, keep), keep)
  }

  // The verdict of a command and the table after it.
  function Issued(t: Table, id: string, now: int, busy: bool): (Verdict, Table) {
    if id in t then (t[id].verdict, t)
    else
      var v := if busy then Busy else Ok;
      (v, Pruned(t[id := Command(v, now)], now, id))
  }

  // ----- idempotence -----

  // A command is answered as it first was while its record lasts, whatever the
  // vehicle now does, and answering it again changes nothing.
  lemma ReplayIsStable(t: Table, id: string, now: int, busy: bool, later: int, busyLater: bool)
    ensures
      var (v, u) := Issued(t, id, now, busy);
      && id in u && u[id].verdict == v
      && Issued(u, id, later, busyLater) == (v, u)
  {
    var v := if busy then Busy else Ok;
    var t' := t[id := Command(v, now)];
    if id !in t {
      assert id in Unexpired(t', now, id);
    }
  }

  // ----- the bound -----

  lemma NewerTotal(t: Table, x: string, y: string)
    requires x in t && y in t && x != y
    ensures Newer(t, x, y) || Newer(t, y, x)
  {
    BeforeTotal(x, y);
  }

  lemma NewerTransitive(t: Table, x: string, y: string, z: string)
    requires x in t && y in t && z in t && Newer(t, x, y) && Newer(t, y, z)
    ensures Newer(t, x, z)
  {
    if t[x].createdAt == t[y].createdAt == t[z].createdAt {
      BeforeTransitive(z, y, x);
    }
  }

  lemma NewerIrreflexive(t: Table, x: string)
    requires x in t
    ensures !Newer(t, x, x)
  {
    if Before(x, x) {
      BeforeAsymmetric(x, x);
    }
  }

  lemma {:induction false} SubsetSize<T>(a: set<T>, b: set<T>)
    requires a <= b
    ensures |a| <= |b|
  {
    if a != {} {
      var x :| x in a;
      SubsetSize(a - {x}, b - {x});
    }
  }

  // A non-empty set of rows has an oldest one: all the others are ahead of it.
  lemma {:induction false} OldestExists(t: Table, s: set<string>) returns (o: string)
    requires s != {} && s <= t.Keys
    ensures o in s && forall x :: x in s && x != o ==> Newer(t, x, o)
  {
    var y :| y in s;
    if s == {y} {
      return y;
    }
    var z := OldestExists(t, s - {y});
    NewerTotal(t, y, z);
    if Newer(t, y, z) {
      o := z;
    } else {
      o := y;
      forall x | x in s && x != y ensures Newer(t, x, y) {
        if x != z {
          NewerTransitive(t, x, z, y);
        }
      }
    }
  }

  // At most CAP rows have fewer than CAP rows ahead of them.
  lemma FirstRows(t: Table, s: set<string>)
    requires s <= t.Keys && forall x :: x in s ==> |Ahead(t, x)| < CAP
    ensures |s| <= CAP
  {
    if s != {} {
      var o := OldestExists(t, s);
      SubsetSize(s - {o}, Ahead(t, o));
      assert |s - {o}| == |s| - 1;
    }
  }

  // However many commands arrive, the table holds at most CAP rows and the one
  // just recorded.
  lemma TableBounded(t: Table, now: int, keep: string)
    ensures |Pruned(t, now, keep)| <= CAP + 1
    ensures keep in t ==> keep in Pruned(t, now, keep)
  {
    var u := Unexpired(t, now, keep);
    var p := Capped(u, keep);
    var s := p.Keys - {keep};
    FirstRows(u, s);
    assert p.Keys <= s + {keep};
    SubsetSize(p.Keys, s + {keep});
    assert |p| == |p.Keys|;
  }

  lemma IssuedBounded(t: Table, id: string, now: int, busy: bool)
    requires |t| <= CAP + 1
    ensures |Issued(t, id, now, busy).1| <= CAP + 1
  {
    if id !in t {
      TableBounded(t[id := Command(if busy then Busy else Ok, now)], now, id);
    }
  }

  // ----- how long a record lasts -----

  datatype Request = Request(id: string, now: int, busy: bool)

  function Served(t: Table, rs: seq<Request>): Table {
    if rs == [] then t
    else
      var r := rs[|rs| - 1];
      Issued(Served(t, rs[..|rs| - 1]), r.id, r.now, r.busy).1
  }

  // Every request is later than the one before, and the first later than `since`.
  predicate Later(since: int, rs: seq<Request>) {
    rs == [] ||
    (var n := |rs| - 1;
     Later(since, rs[..n]) && (if n == 0 then since else rs[n - 1].now) < rs[n].now)
  }

  function LastTime(since: int, rs: seq<Request>): int { if rs == [] then since else rs[|rs| - 1].now }

  predicate Dated(t: Table, now: int) { forall x :: x in t ==> t[x].createdAt <= now }

  lemma ExtraRow(t: Table, u: Table, id: string, x: string)
    requires x in t && x in u && t[x] == u[x]
    requires forall y :: y in u ==> y == id || (y in t && t[y] == u[y])
    ensures |Ahead(u, x)| <= |Ahead(t, x)| + 1
  {
    SubsetSize(Ahead(u, x), Ahead(t, x) + {id});
  }

  // Requests whose id has no record when they come; the others are replays.
  function NewIds(t: Table, rs: seq<Request>): nat {
    if rs == [] then 0
    else
      var n := |rs| - 1;
      NewIds(t, rs[..n]) + if rs[n].id in Served(t, rs[..n]) then 0 else 1
  }

  // A row with room ahead of it and time left survives one more command, which
  // takes at most one place ahead of it, and none if it is a replay.
  lemma SurvivesOne(t: Table, r: Request, x: string)
    requires x in t && (r.id in t || |Ahead(t, x)| < CAP - 1) && r.now - RETENTION <= t[x].createdAt
    ensures var u := Issued(t, r.id, r.now, r.busy).1;
            x in u && u[x] == t[x] && |Ahead(u, x)| <= |Ahead(t, x)| + if r.id in t then 0 else 1
  {
    if r.id !in t {
      var t1 := t[r.id := Command(if r.busy then Busy else Ok, r.now)];
      var t2 := Unexpired(t1, r.now, r.id);
      ExtraRow(t, t2, r.id, x);
      var u := Capped(t2, r.id);
      SubsetSize(Ahead(u, x), Ahead(t2, x));
    }
  }

  lemma {:induction false} SurvivesMany(t: Table, since: int, rs: seq<Request>, x: string)
    requires x in t && Later(since, rs)
    requires |Ahead(t, x)| + NewIds(t, rs) < CAP && LastTime(since, rs) - RETENTION <= t[x].createdAt
    ensures var u := Served(t, rs); x in u && u[x] == t[x] && |Ahead(u, x)| <= |Ahead(t, x)| + NewIds(t, rs)
  {
    if rs != [] {
      var n := |rs| - 1;
      SurvivesMany(t, since, rs[..n], x);
      SurvivesOne(Served(t, rs[..n]), rs[n], x);
    }
  }

  // With a clock that moves forward between commands, a reset can be retried
  // safely through the next 9999 new commands of 30 days, and any number of replays.
  lemma RecordLasts(t: Table, id: string, now: int, busy: bool, rs: seq<Request>, again: int, busyAgain: bool)
    requires id !in t && Dated(t, now - 1) && Later(now, rs)
    requires LastTime(now, rs) <= now + RETENTION
    requires NewIds(Issued(t, id, now, busy).1, rs) < CAP
    ensures
      var (v, u) := Issued(t, id, now, busy);
      Issued(Served(u, rs), id, again, busyAgain) == (v, Served(u, rs))
  {
    var u := Issued(t, id, now, busy).1;
    ReplayIsStable(t, id, now, busy, now, busy);
    assert u[id].createdAt == now;
    assert Ahead(u, id) == {} by {
      forall y | y in u ensures !Newer(u, y, id) {
        if y == id {
          NewerIrreflexive(u, id);
        }
      }
    }
    SurvivesMany(u, now, rs, id);
  }

  // After a new command no other record is older than 30 days, and a record is gone only
  // if it is, or if 10000 newer ones are left.
  lemma RecordsExpire(t: Table, id: string, now: int, busy: bool, x: string)
    requires id !in t && x != id && x in t
    ensures
      var u := Issued(t, id, now, busy).1;
      && (x in u ==> u[x] == t[x] && t[x].createdAt >= now - 2592000)
      && (x !in u && t[x].createdAt >= now - 2592000 ==>
            |Ahead(Unexpired(t[id := Command(if busy then Busy else Ok, now)], now, id), x)| >= 10000)
  {
  }
}
