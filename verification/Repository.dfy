/** src/db/connection_pool and src/db/repository used by one thread at a time. */
module Repository {
  import opened Basics
  import opened Seqs
  import opened ConnectionPool

  /** The connections that could be opened, in order. */
  function Opened(attempts: seq<Option<Conn>>): seq<Conn> {
    if attempts == [] then []
    else (if attempts[0].Some? then [attempts[0].value] else []) + Opened(attempts[1..])
  }

  lemma {:induction false} OpenedSnoc(attempts: seq<Option<Conn>>, a: Option<Conn>)
    ensures Opened(attempts + [a]) == Opened(attempts) + (if a.Some? then [a.value] else [])
  {
    if attempts == [] {
      assert [a][1..] == [];
      Nil([a]);
    } else {
      HeadTail(attempts, [a]);
      OpenedSnoc(attempts[1..], a);
      var head := if attempts[0].Some? then [attempts[0].value] else [];
      Assoc(head, Opened(attempts[1..]), if a.Some? then [a.value] else []);
    }
  }

  /** Exactly the connections that could be opened, in the order of the attempts. */
  lemma {:induction false} OpenedAt(attempts: seq<Option<Conn>>) returns (idx: seq<nat>)
    ensures Positions(idx, |attempts|) && |idx| == |Opened(attempts)|
    ensures forall k :: 0 <= k < |idx| ==> attempts[idx[k]] == Some(Opened(attempts)[k])
    ensures forall i :: 0 <= i < |attempts| && attempts[i].Some? ==> i in idx
  {
    if attempts == [] {
      idx := [];
    } else {
      var init, a := Front(attempts), Last(attempts);
      assert attempts == init + [a];
      OpenedSnoc(init, a);
      idx := OpenedAt(init);
      if a.Some? {
        idx := idx + [|init|];
      }
    }
  }

  /** A row as MySQL gives it: columns are text and may be NULL; numbers are already parsed. */
  datatype Row = Row(id: Option<int>, apiKey: Option<string>, name: Option<string>, rateLimit: Option<int>,
                     enabled: Option<string>)

  datatype KeyInfo = KeyInfo(id: int, apiKey: string, name: string, rateLimit: int, enabled: bool)

  datatype KeyResult = KeyResult(info: Option<KeyInfo>, found: bool, dbError: bool)

  function OrElse<T>(v: Option<T>, default: T): T {
    if v.Some? then v.value else default
  }

  function ReadRow(row: Row): KeyInfo {
    KeyInfo(OrElse(row.id, 0), OrElse(row.apiKey, ""), OrElse(row.name, ""), OrElse(row.rateLimit, 60),
            row.enabled == Some("1"))
  }

  function ReadRows(rows: seq<Row>): (infos: seq<KeyInfo>)
    ensures |infos| == |rows| && forall i :: 0 <= i < |rows| ==> infos[i] == ReadRow(rows[i])
  {
    if rows == [] then [] else [ReadRow(rows[0])] + ReadRows(rows[1..])
  }

  /** How the database answers a SELECT. */
  datatype Answer = QueryFailed | StoreFailed | Rows(rows: seq<Row>)

  /** The idle queue after one connection has been borrowed and returned. */
  function Rotated(idle: seq<Conn>): seq<Conn> {
    if idle == [] then [] else idle[1..] + [idle[0]]
  }

  class Pool {
    var idle: seq<Conn>

    /** Tries to open `|attempts|` connections; the caller throws if none could be opened. */
    constructor (attempts: seq<Option<Conn>>)
      ensures idle == Opened(attempts)
    {
      idle := [];
      new;
      for i := 0 to |attempts|
        invariant idle == Opened(attempts[..i])
      {
        assert attempts[..i + 1] == attempts[..i] + [attempts[i]];
        OpenedSnoc(attempts[..i], attempts[i]);
        Nil(idle);
        if attempts[i].Some? {
          idle := idle + [attempts[i].value];
        }
      }
      assert attempts[..|attempts|] == attempts;
    }

    /** With nobody to return one, an empty pool stays empty for the five seconds. */
    method Borrow() returns (conn: Option<Conn>)
      modifies this
      ensures if old(idle) == [] then conn == None && idle == []
        else conn == Some(old(idle)[0]) && idle == old(idle)[1..]
    {
      if idle == [] {
        return None;
      }
      conn := Some(idle[0]);
      idle := idle[1..];
    }

    method ReturnConnection(conn: Conn)
      modifies this
      ensures idle == old(idle) + [conn]
    {
      idle := idle + [conn];
    }
  }

  method OpenPool(attempts: seq<Option<Conn>>) returns (pool: Option<Pool>)
    ensures pool.None? <==> forall a :: a in attempts ==> a.None?
    ensures pool.Some? ==> fresh(pool.value) && pool.value.idle == Opened(attempts)
  {
    var p := new Pool(attempts);
    OpenedEmpty(attempts);
    if p.idle == [] {
      return None;
    }
    return Some(p);
  }

  lemma {:induction false} OpenedEmpty(attempts: seq<Option<Conn>>)
    ensures Opened(attempts) == [] <==> forall a :: a in attempts ==> a.None?
  {
    if attempts != [] {
      OpenedEmpty(attempts[1..]);
      var head := if attempts[0].Some? then [attempts[0].value] else [];
      assert Opened(attempts) == head + Opened(attempts[1..]);
      assert forall a :: a in attempts <==> a == attempts[0] || a in attempts[1..];
      assert attempts[0] in attempts;
    }
  }

  /** Every outcome returns the connection, if there was one. */
  method FindApiKey(pool: Pool, answer: Answer) returns (r: KeyResult)
    modifies pool
    ensures pool.idle == Rotated(old(pool.idle))
    ensures r.dbError <==> old(pool.idle) == [] || !answer.Rows?
    ensures r.found <==> !r.dbError && answer.rows != [] && answer.rows[0].enabled == Some("1")
    ensures r.info == if r.found then Some(ReadRow(answer.rows[0])) else None
    ensures r.found ==>
      var row, info := answer.rows[0], r.info.value;
      && info.id == (if row.id.Some? then row.id.value else 0)
      && info.apiKey == (if row.apiKey.Some? then row.apiKey.value else "")
      && info.name == (if row.name.Some? then row.name.value else "")
      && info.rateLimit == (if row.rateLimit.Some? then row.rateLimit.value else 60)
      && info.enabled
  {
    var conn := pool.Borrow();
    if conn.None? {
      return KeyResult(None, false, true);
    }
    if answer.QueryFailed? {
      pool.ReturnConnection(conn.value);
      return KeyResult(None, false, true);
    }
    if answer.StoreFailed? {
      pool.ReturnConnection(conn.value);
      return KeyResult(None, false, true);
    }
    r := KeyResult(None, false, false);
    if answer.rows != [] {
      var info := ReadRow(answer.rows[0]);
      if info.enabled {
        r := KeyResult(Some(info), true, false);
      }
    }
    pool.ReturnConnection(conn.value);
  }

  /** None when the pool stays empty: the call then goes on with nullptr, and what follows is undefined. */
  method ListApiKeys(pool: Pool, answer: Answer) returns (keys: Option<seq<KeyInfo>>)
    modifies pool
    ensures pool.idle == Rotated(old(pool.idle))
    ensures keys == if old(pool.idle) == [] then None else Some(if answer.Rows? then ReadRows(answer.rows) else [])
    ensures keys.Some? && answer.Rows? ==>
      && |keys.value| == |answer.rows|
      && forall i :: 0 <= i < |answer.rows| ==>
           var row, info := answer.rows[i], keys.value[i];
           && info.id == (if row.id.Some? then row.id.value else 0)
           && info.apiKey == (if row.apiKey.Some? then row.apiKey.value else "")
           && info.name == (if row.name.Some? then row.name.value else "")
           && info.rateLimit == (if row.rateLimit.Some? then row.rateLimit.value else 60)
           && (info.enabled <==> row.enabled == Some("1"))
  {
    var conn := pool.Borrow();
    if conn.None? {
      return None;
    }
    if !answer.Rows? {
      pool.ReturnConnection(conn.value);
      return Some([]);
    }
    ghost var all := ReadRows(answer.rows);
    var infos: seq<KeyInfo> := [];
    for i := 0 to |answer.rows|
      invariant infos == all[..i]
      invariant pool.idle == old(pool.idle)[1..]
    {
      infos := infos + [ReadRow(answer.rows[i])];
    }
    assert all[..|answer.rows|] == all;
    pool.ReturnConnection(conn.value);
    return Some(infos);
  }
}
