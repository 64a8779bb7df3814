/**
 The table of refresh tokens. A rotated token names the token that replaced it, so a session is a
 chain of tokens; a token's id is its place in the order of insertion. A presented token that is no
 longer live ends its session by a walk along the chain that is capped.
 */
module RefreshTable {
  import opened Options
  import opened Base64

  type Digest = seq<Byte>

  datatype Row = Row(user: string, hash: Digest, expires: int, revoked: bool, next: Option<nat>)

  datatype TokenError = Invalid | Expired | Failure

  function FindHash(rows: seq<Row>, hash: Digest): (at: Option<nat>)
    ensures at.Some? ==> at.value < |rows| && rows[at.value].hash == hash
    ensures at.None? ==> forall i :: 0 <= i < |rows| ==> rows[i].hash != hash
  {
    if rows == [] then None
    else if rows[|rows| - 1].hash == hash then Some(|rows| - 1)
    else FindHash(rows[..|rows| - 1], hash)
  }

  // ---- the repository's operations ----

  /** The digest column is unique. */
  function Insert(rows: seq<Row>, user: string, hash: Digest, expires: int): Result<seq<Row>, TokenError> {
    if FindHash(rows, hash).Some? then Err(Failure) else Ok(rows + [Row(user, hash, expires, false, None)])
  }

  function GetActive(rows: seq<Row>, hash: Digest, now: int): Result<nat, TokenError> {
    match FindHash(rows, hash)
    case None => Err(Invalid)
    case Some(id) =>
      if rows[id].revoked then Err(Invalid) else if now > rows[id].expires then Err(Expired) else Ok(id)
  }

  function RevokeRow(rows: seq<Row>, id: nat): seq<Row>
    requires id < |rows|
  {
    rows[id := rows[id].(revoked := true)]
  }

  /** Revokes a live token and inserts its successor, both or neither. */
  function Rotate(rows: seq<Row>, id: nat, hash: Digest, expires: int): Result<seq<Row>, TokenError> {
    if id >= |rows| then Err(Invalid)
    else
      match Insert(rows, rows[id].user, hash, expires)
      case Err(e) => Err(e)
      case Ok(grown) =>
        if rows[id].revoked then Err(Invalid)
        else Ok(grown[id := rows[id].(revoked := true, next := Some(|rows|))])
  }

  /** One statement of a log out everywhere: it reaches the rows that were there when it began. */
  function Sweep(rows: seq<Row>, user: string, upTo: nat): (r: seq<Row>)
    ensures |r| == |rows|
  {
    seq(|rows|, i requires 0 <= i < |rows| =>
      if i < upTo && rows[i].user == user then rows[i].(revoked := true) else rows[i])
  }

  // ---- chains ----

  function NextOf(rows: seq<Row>, i: nat): (n: Option<nat>)
    ensures n.Some? ==> i < n.value < |rows|
  {
    if i < |rows| && rows[i].next.Some? && i < rows[i].next.value < |rows| then rows[i].next else None
  }

  /** The token the session holds now. */
  function End(rows: seq<Row>, i: nat): (e: nat)
    ensures i <= e && NextOf(rows, e).None? && (i < |rows| ==> e < |rows|)
    decreases |rows| - i
  {
    var n := NextOf(rows, i);
    if n.Some? then End(rows, n.value) else i
  }

  /** How many rotations old a token is. */
  function Depth(rows: seq<Row>, i: nat): nat
    decreases |rows| - i
  {
    var n := NextOf(rows, i);
    if n.Some? then 1 + Depth(rows, n.value) else 0
  }

  function Follow(rows: seq<Row>, i: nat, steps: nat): (e: nat)
    ensures i < |rows| ==> e < |rows|
    decreases steps
  {
    var n := NextOf(rows, i);
    if steps == 0 || n.None? then i else Follow(rows, n.value, steps - 1)
  }

  predicate Live(rows: seq<Row>, i: nat) { i < |rows| && !rows[i].revoked }

  /** No token of the session is live: see OneLiveToken. */
  predicate Dead(rows: seq<Row>, i: nat) { !Live(rows, End(rows, i)) }

  predicate LinkFits(rows: seq<Row>, i: nat)
    requires i < |rows|
  {
    rows[i].next.Some? ==>
      i < rows[i].next.value < |rows| && rows[i].revoked && rows[rows[i].next.value].user == rows[i].user
  }

  /** Links go forward from revoked tokens, no two to the same token, and digests are unique. */
  ghost predicate WellLinked(rows: seq<Row>) {
    && (forall i: nat :: i < |rows| ==> LinkFits(rows, i))
    && (forall i, j ::
          0 <= i < |rows| && 0 <= j < |rows| && rows[i].next.Some? && rows[i].next == rows[j].next ==> i == j)
    && (forall i, j :: 0 <= i < |rows| && 0 <= j < |rows| && rows[i].hash == rows[j].hash ==> i == j)
  }

  /** A session has one live token at most, and it is the last: no other token of the chain is live. */
  lemma OneLiveToken(rows: seq<Row>, i: nat, j: nat)
    requires WellLinked(rows) && i < |rows| && j < |rows| && End(rows, i) == End(rows, j) && Live(rows, j)
    ensures j == End(rows, i) && !Dead(rows, i)
  {
    assert LinkFits(rows, j);
  }

  lemma {:induction false} FollowIs(rows: seq<Row>, i: nat, steps: nat)
    ensures steps <= Depth(rows, i) ==>
              End(rows, Follow(rows, i, steps)) == End(rows, i)
              && Depth(rows, Follow(rows, i, steps)) == Depth(rows, i) - steps
    ensures steps >= Depth(rows, i) ==> Follow(rows, i, steps) == End(rows, i)
    decreases steps
  {
    var n := NextOf(rows, i);
    if steps == 0 || n.None? {
    } else {
      FollowIs(rows, n.value, steps - 1);
    }
  }

  lemma {:induction false} FollowMore(rows: seq<Row>, i: nat, steps: nat)
    requires NextOf(rows, Follow(rows, i, steps)).Some? && steps <= Depth(rows, i)
    ensures steps < Depth(rows, i) && Follow(rows, i, steps + 1) == NextOf(rows, Follow(rows, i, steps)).value
    decreases steps
  {
    var n := NextOf(rows, i);
    if steps == 0 || n.None? {
    } else {
      FollowMore(rows, n.value, steps - 1);
    }
  }

  lemma EndOfNext(rows: seq<Row>, j: nat)
    requires NextOf(rows, j).Some?
    ensures End(rows, j) == End(rows, NextOf(rows, j).value)
  {
  }

  lemma EndIsItself(rows: seq<Row>, j: nat)
    requires NextOf(rows, j).None?
    ensures End(rows, j) == j
  {
  }

  /** Tokens of one session lie on one line: the older leads to the newer. */
  lemma {:induction false} ChainIsLine(rows: seq<Row>, i: nat, j: nat)
    requires WellLinked(rows) && i < |rows| && j < |rows|
    requires End(rows, i) == End(rows, j) && Depth(rows, i) >= Depth(rows, j)
    ensures Follow(rows, i, Depth(rows, i) - Depth(rows, j)) == j
    decreases Depth(rows, j)
  {
    hide Follow, End;
    var far := Depth(rows, i) - Depth(rows, j);
    FollowIs(rows, i, far);
    var n := NextOf(rows, j);
    if n.Some? {
      EndOfNext(rows, j);
      ChainIsLine(rows, i, n.value);
      var k := Follow(rows, i, far);
      FollowIs(rows, i, far);
      assert NextOf(rows, k).Some?;
      FollowMore(rows, i, far);
      assert rows[k].next == rows[j].next;
    } else {
      EndIsItself(rows, j);
    }
  }

  // ---- how the table may change ----

  predicate RowEvolves(a: Row, b: Row, size: nat) {
    && b.user == a.user && b.hash == a.hash && b.expires == a.expires
    && (a.revoked ==> b.revoked)
    && (a.next.Some? || a.revoked ==> b.next == a.next)
    && (a.next.None? && b.next.Some? ==> b.next.value >= size)
  }

  /** Tokens are never dropped, never live again, never linked twice, and never linked once revoked. */
  ghost predicate Evolves(a: seq<Row>, b: seq<Row>) {
    |a| <= |b| && forall i :: 0 <= i < |a| ==> RowEvolves(a[i], b[i], |a|)
  }

  lemma SameEvolves(rows: seq<Row>)
    ensures Evolves(rows, rows)
  {
  }

  lemma EvolvesAlong(a: seq<Row>, b: seq<Row>, c: seq<Row>)
    requires Evolves(a, b) && Evolves(b, c)
    ensures Evolves(a, c)
  {
    forall i | 0 <= i < |a| ensures RowEvolves(a[i], c[i], |a|) {
      assert RowEvolves(a[i], b[i], |a|) && RowEvolves(b[i], c[i], |b|);
    }
  }

  lemma InsertKeeps(rows: seq<Row>, user: string, hash: Digest, expires: int)
    requires WellLinked(rows) && Insert(rows, user, hash, expires).Ok?
    ensures var r := Insert(rows, user, hash, expires).value; WellLinked(r) && Evolves(rows, r)
  {
    var r := Insert(rows, user, hash, expires).value;
    forall i: nat | i < |r| ensures LinkFits(r, i) {
      assert i < |rows| ==> LinkFits(rows, i);
    }
  }

  lemma RotateKeeps(rows: seq<Row>, id: nat, hash: Digest, expires: int)
    requires WellLinked(rows) && Rotate(rows, id, hash, expires).Ok?
    ensures var r := Rotate(rows, id, hash, expires).value; WellLinked(r) && Evolves(rows, r)
  {
    var r := Rotate(rows, id, hash, expires).value;
    forall i: nat | i < |r| ensures LinkFits(r, i) {
      assert i < |rows| ==> LinkFits(rows, i);
    }
    forall i: nat | i < |rows| ensures RowEvolves(rows[i], r[i], |rows|) {
      assert LinkFits(rows, i);
    }
    forall i, j | 0 <= i < |r| && 0 <= j < |r| && r[i].next.Some? && r[i].next == r[j].next ensures i == j {
      assert i < |rows| ==> LinkFits(rows, i);
      assert j < |rows| ==> LinkFits(rows, j);
    }
  }

  lemma RevokeRowKeeps(rows: seq<Row>, id: nat)
    requires WellLinked(rows) && id < |rows|
    ensures WellLinked(RevokeRow(rows, id)) && Evolves(rows, RevokeRow(rows, id))
  {
    var r := RevokeRow(rows, id);
    forall i: nat | i < |r| ensures LinkFits(r, i) {
      assert LinkFits(rows, i);
    }
  }

  lemma SweepKeeps(rows: seq<Row>, user: string, upTo: nat)
    requires WellLinked(rows)
    ensures WellLinked(Sweep(rows, user, upTo)) && Evolves(rows, Sweep(rows, user, upTo))
  {
    var r := Sweep(rows, user, upTo);
    forall i: nat | i < |r| ensures LinkFits(r, i) {
      assert LinkFits(rows, i);
    }
  }

  /** After the sweep a person's live tokens are exactly the live ones stored since it began. */
  lemma SweepLeaves(rows: seq<Row>, user: string, upTo: nat, i: nat)
    requires i < |rows|
    ensures Live(Sweep(rows, user, upTo), i) <==> Live(rows, i) && (rows[i].user != user || i >= upTo)
  {
  }

  lemma NextStays(a: seq<Row>, b: seq<Row>, i: nat)
    requires WellLinked(a) && Evolves(a, b) && i < |a| && NextOf(a, i).Some?
    ensures NextOf(b, i) == NextOf(a, i)
  {
    assert RowEvolves(a[i], b[i], |a|);
  }

  /** A session with no live token never has one again, and no token is ever added to it. */
  lemma {:induction false} DeadStays(a: seq<Row>, b: seq<Row>, i: nat)
    requires WellLinked(a) && WellLinked(b) && Evolves(a, b) && i < |a| && Dead(a, i)
    ensures Dead(b, i) && End(b, i) == End(a, i) && Depth(b, i) == Depth(a, i)
    decreases |a| - i
  {
    if NextOf(a, i).Some? {
      NextStays(a, b, i);
      DeadStays(a, b, NextOf(a, i).value);
    } else {
      assert LinkFits(a, i) && RowEvolves(a[i], b[i], |a|);
    }
  }

  lemma {:induction false} DepthGrows(a: seq<Row>, b: seq<Row>, i: nat)
    requires WellLinked(a) && Evolves(a, b) && i < |a|
    ensures Depth(a, i) <= Depth(b, i)
    decreases |a| - i
  {
    if NextOf(a, i).None? {
    } else {
      NextStays(a, b, i);
      DepthGrows(a, b, NextOf(a, i).value);
    }
  }

  lemma {:induction false} FollowStays(a: seq<Row>, b: seq<Row>, i: nat, steps: nat)
    requires WellLinked(a) && Evolves(a, b) && i < |a| && steps <= Depth(a, i)
    ensures Follow(b, i, steps) == Follow(a, i, steps)
    decreases steps
  {
    if steps == 0 {
    } else {
      NextStays(a, b, i);
      FollowStays(a, b, NextOf(a, i).value, steps - 1);
    }
  }

  // ---- ending a session ----

  /** RevokeByHash with no one else at the table. */
  function EndByHash(rows: seq<Row>, hash: Digest, cap: nat): (seq<Row>, Option<TokenError>) {
    match FindHash(rows, hash)
    case None => (rows, Some(Invalid))
    case Some(i) =>
      if Depth(rows, i) > cap || Dead(rows, i) then (rows, Some(Invalid)) else (RevokeRow(rows, End(rows, i)), None)
  }

  lemma {:induction false} EndAfterRevoke(rows: seq<Row>, id: nat, i: nat)
    requires id < |rows|
    ensures End(RevokeRow(rows, id), i) == End(rows, i) && Depth(RevokeRow(rows, id), i) == Depth(rows, i)
    decreases |rows| - i
  {
    var r := RevokeRow(rows, id);
    assert NextOf(r, i) == NextOf(rows, i);
    if NextOf(rows, i).None? {
    } else {
      EndAfterRevoke(rows, id, NextOf(rows, i).value);
    }
  }

  /**
   A known token at most cap rotations old always ends its session, and no other; an older one ends
   it only if it was over, and nothing else changes.
   */
  lemma EndByHashIs(rows: seq<Row>, i: nat, cap: nat)
    requires WellLinked(rows) && i < |rows|
    ensures var (after, error) := EndByHash(rows, rows[i].hash, cap);
            && (Dead(after, i) <==> Depth(rows, i) <= cap || Dead(rows, i))
            && (error.None? <==> Depth(rows, i) <= cap && !Dead(rows, i))
            && |after| == |rows|
            && forall j: nat :: j < |rows| && End(rows, j) != End(rows, i) ==>
                                  after[j] == rows[j] && Dead(after, j) == Dead(rows, j)
  {
    hide End, Depth;
    assert FindHash(rows, rows[i].hash) == Some(i);
    var e := End(rows, i);
    if Depth(rows, i) <= cap && !Dead(rows, i) {
      forall j: nat | j < |rows| ensures End(RevokeRow(rows, e), j) == End(rows, j) && (End(rows, j) != e ==> j != e) {
        EndAfterRevoke(rows, e, j);
        EndIsItself(rows, e);
      }
    }
  }

  // ---- the repository over a table it updates in place ----

  class TokenRepo {
    const cap: nat
    var rows: seq<Row>

    constructor (maxReuseSteps: nat)
      ensures rows == [] && cap == maxReuseSteps
    {
      rows, cap := [], maxReuseSteps;
    }

    method InsertToken(user: string, hash: Digest, expires: int) returns (r: Result<nat, TokenError>)
      modifies `rows
      ensures match Insert(old(rows), user, hash, expires)
              case Err(e) => r == Err(e) && rows == old(rows)
              case Ok(grown) => r == Ok(|old(rows)|) && rows == grown
    {
      if FindHash(rows, hash).Some? {
        return Err(Failure);
      }
      rows := rows + [Row(user, hash, expires, false, None)];
      return Ok(|rows| - 1);
    }

    method RotateToken(id: nat, hash: Digest, expires: int) returns (r: Result<nat, TokenError>)
      modifies `rows
      ensures match Rotate(old(rows), id, hash, expires)
              case Err(e) => r == Err(e) && rows == old(rows)
              case Ok(turned) => r == Ok(|old(rows)|) && rows == turned
    {
      if id >= |rows| {
        return Err(Invalid);
      }
      var before := rows;
      var inserted := InsertToken(rows[id].user, hash, expires);
      if inserted.Err? {
        return inserted;
      }
      if rows[id].revoked {
        rows := before;
        return Err(Invalid);
      }
      rows := rows[id := rows[id].(revoked := true, next := Some(inserted.value))];
      return inserted;
    }

    /** The walk to the end as it is found, then the walk that holds each row it reaches. */
    method RevokeByHash(hash: Digest) returns (error: Option<TokenError>)
      requires WellLinked(rows)
      modifies `rows
      ensures (rows, error) == EndByHash(old(rows), hash, cap)
    {
      var at := FindHash(rows, hash);
      if at.None? {
        return Some(Invalid);
      }
      var end, step := at.value, 0;
      while step < cap && rows[end].next.Some?
        invariant end < |rows| && step <= cap && step <= Depth(rows, at.value) && end == Follow(rows, at.value, step)
        invariant rows == old(rows)
      {
        assert LinkFits(rows, end);
        FollowMore(rows, at.value, step);
        end := rows[end].next.value;
        step := step + 1;
      }
      while step <= cap
        invariant end < |rows| && step <= Depth(rows, at.value) && end == Follow(rows, at.value, step)
        invariant rows == old(rows)
      {
        assert LinkFits(rows, end);
        FollowIs(rows, at.value, step);
        if rows[end].next.Some? {
          FollowMore(rows, at.value, step);
          end := rows[end].next.value;
          step := step + 1;
          continue;
        }
        if rows[end].revoked {
          return Some(Invalid);
        }
        rows := rows[end := rows[end].(revoked := true)];
        return None;
      }
      return Some(Invalid);
    }

    method RevokeAllForUser(user: string)
      modifies `rows
      ensures rows == Sweep(old(rows), user, |old(rows)|)
    {
      var n := |rows|;
      for id := 0 to n
        invariant rows == Sweep(old(rows), user, id)
      {
        if rows[id].user == user && !rows[id].revoked {
          rows := rows[id := rows[id].(revoked := true)];
        }
      }
    }
  }
}
