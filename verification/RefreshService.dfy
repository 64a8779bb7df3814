/** Issuing, redeeming and revoking opaque tokens: only a token's digest is stored. */
module RefreshService {
  import opened Options
  import opened Base64
  import opened RefreshTable

  type Sum = seq<Byte> -> Digest

  /** A token as it is handed out, and the digest of it that is stored. */
  datatype Fresh = Fresh(raw: string, hash: Digest)

  function Generate(sum: Sum, bytes: seq<Byte>): Fresh { Fresh(Encode(bytes), sum(bytes)) }

  function HashPresented(sum: Sum, token: string): Option<Digest> {
    match Decode(token)
    case None => None
    case Some(bytes) => Some(sum(bytes))
  }

  /** A token handed out is looked up by the very digest that was stored. */
  lemma PresentedIsStored(sum: Sum, bytes: seq<Byte>)
    ensures HashPresented(sum, Generate(sum, bytes).raw) == Some(Generate(sum, bytes).hash)
  {
    DecodeOfEncode(bytes);
  }

  /** What Redeem answers: the owner, the new token and its id. */
  datatype Grant = Grant(user: string, token: string, id: nat)

  /**
   Redeem: `seen` is the table as the token is checked, `rows` the table as other calls leave it for
   the calls after the check. The table then, and the answer.
   */
  function Redeem(seen: seq<Row>, rows: seq<Row>, cap: nat, sum: Sum, token: string, now: int, bytes: seq<Byte>,
                  ttl: int)
    : (seq<Row>, Result<Grant, TokenError>)
  {
    match HashPresented(sum, token)
    case None => (rows, Err(Invalid))
    case Some(hash) =>
      match GetActive(seen, hash, now)
      case Err(e) => (if e == Invalid then EndByHash(rows, hash, cap).0 else rows, Err(e))
      case Ok(id) =>
        var made := Generate(sum, bytes);
        match Rotate(rows, id, made.hash, now + ttl)
        case Err(e) => (if e == Invalid then EndByHash(rows, hash, cap).0 else rows, Err(e))
        case Ok(turned) => (turned, Ok(Grant(seen[id].user, made.raw, |rows|)))
  }

  /** A presented token's row, when it decodes to one. */
  function TokenOf(rows: seq<Row>, sum: Sum, token: string): (at: Option<nat>)
    ensures at.Some? ==> at.value < |rows|
  {
    match HashPresented(sum, token)
    case None => None
    case Some(hash) => FindHash(rows, hash)
  }

  /** What a caller's transaction makes of the table with a new digest and expiry, or its error and nothing. */
  type Persist = (seq<Row>, Digest, int) -> Result<seq<Row>, TokenError>

  /** A password change's: every token of the person revoked and this one stored. */
  function ReplaceAll(user: string): Persist {
    (rows, hash, expires) => Insert(Sweep(rows, user, |rows|), user, hash, expires)
  }

  lemma FindsUnique(rows: seq<Row>, i: nat)
    requires WellLinked(rows) && i < |rows|
    ensures FindHash(rows, rows[i].hash) == Some(i)
  {
  }

  lemma IsTokenOf(rows: seq<Row>, sum: Sum, bytes: seq<Byte>, n: nat)
    requires WellLinked(rows) && n < |rows| && rows[n].hash == sum(bytes)
    ensures TokenOf(rows, sum, Encode(bytes)) == Some(n)
  {
    PresentedIsStored(sum, bytes);
    FindsUnique(rows, n);
  }

  /** After it the new token is the person's one live token, and it is the one handed out. */
  lemma ReplaceAllLeavesOne(rows: seq<Row>, sum: Sum, user: string, bytes: seq<Byte>, expires: int, i: nat)
    requires ReplaceAll(user)(rows, sum(bytes), expires).Ok?
    ensures var after := ReplaceAll(user)(rows, sum(bytes), expires).value;
            i < |after| ==> (Live(after, i) && after[i].user == user <==> i == |rows|)
    ensures WellLinked(rows) ==>
              TokenOf(ReplaceAll(user)(rows, sum(bytes), expires).value, sum, Encode(bytes)) == Some(|rows|)
  {
    hide FindHash, WellLinked;
    var after := ReplaceAll(user)(rows, sum(bytes), expires).value;
    if i < |rows| {
      SweepLeaves(rows, user, |rows|, i);
    }
    if WellLinked(rows) {
      SweepKeeps(rows, user, |rows|);
      InsertKeeps(Sweep(rows, user, |rows|), user, sum(bytes), expires);
      IsTokenOf(after, sum, bytes, |rows|);
    }
  }

  lemma EndKeeps(rows: seq<Row>, hash: Digest, cap: nat)
    requires WellLinked(rows)
    ensures WellLinked(EndByHash(rows, hash, cap).0) && Evolves(rows, EndByHash(rows, hash, cap).0)
  {
    hide WellLinked, Depth, End;
    if EndByHash(rows, hash, cap).1.None? {
      RevokeRowKeeps(rows, End(rows, FindHash(rows, hash).value));
    }
  }

  lemma RedeemKeeps(seen: seq<Row>, rows: seq<Row>, cap: nat, sum: Sum, token: string, now: int, bytes: seq<Byte>,
                    ttl: int)
    requires WellLinked(rows)
    ensures var after := Redeem(seen, rows, cap, sum, token, now, bytes, ttl).0;
            WellLinked(after) && Evolves(rows, after)
  {
    hide WellLinked, EndByHash, Rotate, GetActive;
    assert Evolves(rows, rows);
    var hash := HashPresented(sum, token);
    if hash.Some? {
      EndKeeps(rows, hash.value, cap);
      var r := GetActive(seen, hash.value, now);
      if r.Ok? && Rotate(rows, r.value, Generate(sum, bytes).hash, now + ttl).Ok? {
        RotateKeeps(rows, r.value, Generate(sum, bytes).hash, now + ttl);
      }
    }
  }

  /** A token is taken exactly when it is stored, live to the end and not past its time, and the new digest is new. */
  lemma RedeemTakes(seen: seq<Row>, rows: seq<Row>, cap: nat, sum: Sum, token: string, now: int, bytes: seq<Byte>,
                    ttl: int)
    requires Evolves(seen, rows)
    ensures var (answer, at) := (Redeem(seen, rows, cap, sum, token, now, bytes, ttl).1, TokenOf(seen, sum, token));
            && (answer.Ok? <==> && at.Some? && Live(seen, at.value) && Live(rows, at.value)
                                && now <= seen[at.value].expires && FindHash(rows, sum(bytes)).None?)
            && (answer.Ok? ==> answer == Ok(Grant(seen[at.value].user, Encode(bytes), |rows|)))
            && (answer == Err(Expired) <==> at.Some? && Live(seen, at.value) && now > seen[at.value].expires)
  {
    hide EndByHash;
  }

  lemma SeenIsSame(seen: seq<Row>, rows: seq<Row>, i: nat)
    requires WellLinked(rows) && Evolves(seen, rows) && i < |rows|
    ensures FindHash(seen, rows[i].hash) == if i < |seen| then Some(i) else None
  {
    var at := FindHash(seen, rows[i].hash);
    assert at.Some? ==> RowEvolves(seen[at.value], rows[at.value], |seen|);
    assert i < |seen| ==> RowEvolves(seen[i], rows[i], |seen|);
  }

  lemma RefusedIs(seen: seq<Row>, rows: seq<Row>, cap: nat, sum: Sum, token: string, now: int, bytes: seq<Byte>,
                  ttl: int, i: nat)
    requires WellLinked(rows) && Evolves(seen, rows) && TokenOf(rows, sum, token) == Some(i)
    ensures var (after, answer) := Redeem(seen, rows, cap, sum, token, now, bytes, ttl);
            && (answer == Err(Invalid) <==>
                !Live(seen, i) || (!Live(rows, i) && now <= seen[i].expires && FindHash(rows, sum(bytes)).None?))
            && (answer == Err(Invalid) ==> after == EndByHash(rows, rows[i].hash, cap).0)
  {
    hide EndByHash, WellLinked, Evolves, FindHash;
    SeenIsSame(seen, rows, i);
  }

  /**
   A known token is refused exactly when it was rotated or revoked, before the check or after it; the
   refusal ends the session exactly when the token is within the cap, or it was over, and no other.
   */
  lemma RefusalEndsSession(seen: seq<Row>, rows: seq<Row>, cap: nat, sum: Sum, token: string, now: int,
                           bytes: seq<Byte>, ttl: int, i: nat)
    requires WellLinked(rows) && Evolves(seen, rows) && TokenOf(rows, sum, token) == Some(i)
    ensures var (after, answer) := Redeem(seen, rows, cap, sum, token, now, bytes, ttl);
            && (answer == Err(Invalid) <==>
                !Live(seen, i) || (!Live(rows, i) && now <= seen[i].expires && FindHash(rows, sum(bytes)).None?))
            && (answer == Err(Invalid) ==>
                && (Dead(after, i) <==> Depth(rows, i) <= cap || Dead(rows, i))
                && |after| == |rows|
                && forall j: nat :: j < |rows| && End(rows, j) != End(rows, i) ==> after[j] == rows[j])
  {
    hide Depth, End, Redeem, EndByHash, Dead, WellLinked, Evolves, TokenOf, Live, FindHash;
    EndByHashIs(rows, i, cap);
    RefusedIs(seen, rows, cap, sum, token, now, bytes, ttl, i);
  }

  /** An unknown or malformed token changes nothing. */
  lemma UnknownChangesNothing(seen: seq<Row>, rows: seq<Row>, cap: nat, sum: Sum, token: string, now: int,
                              bytes: seq<Byte>, ttl: int)
    requires Evolves(seen, rows) && TokenOf(rows, sum, token).None?
    ensures Redeem(seen, rows, cap, sum, token, now, bytes, ttl) == (rows, Err(Invalid))
  {
    var hash := HashPresented(sum, token);
    if hash.Some? {
      var at := FindHash(seen, hash.value);
      assert at.Some? ==> RowEvolves(seen[at.value], rows[at.value], |seen|);
    }
  }

  lemma RotatedIsOneOld(rows: seq<Row>, i: nat, hash: Digest, expires: int)
    requires WellLinked(rows) && Rotate(rows, i, hash, expires).Ok?
    ensures var r := Rotate(rows, i, hash, expires).value;
            && !Live(r, i) && Live(r, |rows|) && r[i].hash == rows[i].hash && r[|rows|].hash == hash
            && |r| == |rows| + 1 && NextOf(r, i) == Some(|rows|) && End(r, i) == |rows| && Depth(r, i) == 1
  {
    var r := Rotate(rows, i, hash, expires).value;
    assert NextOf(r, i) == Some(|rows|) && NextOf(r, |rows|).None?;
  }

  lemma TakenIsRotated(rows: seq<Row>, cap: nat, sum: Sum, token: string, now: int, bytes: seq<Byte>, ttl: int)
    requires Redeem(rows, rows, cap, sum, token, now, bytes, ttl).1.Ok?
    ensures TokenOf(rows, sum, token).Some?
    ensures var turned := Rotate(rows, TokenOf(rows, sum, token).value, sum(bytes), now + ttl);
            turned.Ok? && Redeem(rows, rows, cap, sum, token, now, bytes, ttl).0 == turned.value
  {
  }

  /** The table after a token was taken: its successor is one step on, live, and the session's last. */
  lemma TakenLinks(rows: seq<Row>, cap: nat, sum: Sum, token: string, now: int, bytes: seq<Byte>, ttl: int)
    returns (i: nat, n: nat)
    requires WellLinked(rows) && Redeem(rows, rows, cap, sum, token, now, bytes, ttl).1.Ok?
    ensures var (r, answer) := Redeem(rows, rows, cap, sum, token, now, bytes, ttl);
            && n == |rows| && |r| == n + 1 && i < n && WellLinked(r)
            && !Live(r, i) && TokenOf(r, sum, token) == Some(i) && Depth(r, i) == 1 && NextOf(r, i) == Some(n)
            && End(r, i) == n
            && r[n].hash == sum(bytes) && answer.Ok? && answer.value.id == n && answer.value.token == Encode(bytes)
  {
    hide WellLinked, Redeem, Evolves, Depth, End, Rotate;
    SameEvolves(rows);
    RedeemTakes(rows, rows, cap, sum, token, now, bytes, ttl);
    RedeemKeeps(rows, rows, cap, sum, token, now, bytes, ttl);
    TakenIsRotated(rows, cap, sum, token, now, bytes, ttl);
    i, n := TokenOf(rows, sum, token).value, |rows|;
    RotatedIsOneOld(rows, i, sum(bytes), now + ttl);
    FindsUnique(Rotate(rows, i, sum(bytes), now + ttl).value, i);
  }

  lemma DeadWithEnd(a: seq<Row>, b: seq<Row>, i: nat, n: nat)
    requires WellLinked(a) && WellLinked(b) && Evolves(a, b) && |a| == |b| && i < |a|
    requires End(a, i) == n && NextOf(a, i) == Some(n) && Dead(b, i)
    ensures n < |b| && !Live(b, n) && b[n].hash == a[n].hash && Dead(b, n)
  {
    NextStays(a, b, i);
    assert RowEvolves(a[n], b[n], |a|);
    EndOfNext(b, i);
    assert NextOf(a, n).None?;
    assert NextOf(b, n).None?;
  }

  /** A token is taken once; the same token again ends the session, and the new token is refused with it. */
  lemma SecondUseEndsBoth(rows: seq<Row>, cap: nat, sum: Sum, token: string, times: (int, int, int),
                          bytes: (seq<Byte>, seq<Byte>, seq<Byte>), ttl: int)
    requires WellLinked(rows) && cap >= 1 && Redeem(rows, rows, cap, sum, token, times.0, bytes.0, ttl).1.Ok?
    ensures var (r1, first) := Redeem(rows, rows, cap, sum, token, times.0, bytes.0, ttl);
            var (r2, again) := Redeem(r1, r1, cap, sum, token, times.1, bytes.1, ttl);
            var (r3, successor) := Redeem(r2, r2, cap, sum, first.value.token, times.2, bytes.2, ttl);
            again == Err(Invalid) && Dead(r2, first.value.id) && successor == Err(Invalid)
  {
    hide WellLinked, Redeem, Evolves, Depth, End, Rotate, TokenOf, Dead, NextOf, Encode;
    var (r1, first) := Redeem(rows, rows, cap, sum, token, times.0, bytes.0, ttl);
    var i, n := TakenLinks(rows, cap, sum, token, times.0, bytes.0, ttl);
    SameEvolves(r1);
    RefusalEndsSession(r1, r1, cap, sum, token, times.1, bytes.1, ttl, i);
    RedeemKeeps(r1, r1, cap, sum, token, times.1, bytes.1, ttl);
    var r2 := Redeem(r1, r1, cap, sum, token, times.1, bytes.1, ttl).0;
    DeadWithEnd(r1, r2, i, n);
    IsTokenOf(r2, sum, bytes.0, n);
    SameEvolves(r2);
    RefusalEndsSession(r2, r2, cap, sum, Encode(bytes.0), times.2, bytes.2, ttl, n);
  }

  /** A text that does not decode is refused and changes nothing, whatever digests are stored. */
  lemma MalformedIsRefused(seen: seq<Row>, rows: seq<Row>, cap: nat, sum: Sum, token: string, now: int,
                           bytes: seq<Byte>, ttl: int)
    requires Decode(token).None?
    ensures Redeem(seen, rows, cap, sum, token, now, bytes, ttl) == (rows, Err(Invalid))
  {
  }

  /** A token that lapsed, or a new digest that was not stored, changes nothing either. */
  lemma LapseChangesNothing(seen: seq<Row>, rows: seq<Row>, cap: nat, sum: Sum, token: string, now: int,
                            bytes: seq<Byte>, ttl: int)
    ensures var (after, answer) := Redeem(seen, rows, cap, sum, token, now, bytes, ttl);
            answer == Err(Expired) || answer == Err(Failure) ==> after == rows
  {
    hide EndByHash, FindHash;
  }

  predicate IsUnused(rows: seq<Row>, hash: Digest) { forall i :: 0 <= i < |rows| ==> rows[i].hash != hash }

  lemma UnusedIsUnfound(rows: seq<Row>, hash: Digest)
    ensures FindHash(rows, hash).None? <==> IsUnused(rows, hash)
  {
  }

  /** A live token, presented with an unused new digest, is taken for its owner up to its time and lapses after it. */
  lemma LiveIsRedeemable(rows: seq<Row>, n: nat, cap: nat, sum: Sum, bytes: seq<Byte>, later: int, more: seq<Byte>,
                         ttl: int)
    requires WellLinked(rows) && n < |rows| && rows[n].hash == sum(bytes) && Live(rows, n) && IsUnused(rows, sum(more))
    ensures Redeem(rows, rows, cap, sum, Encode(bytes), later, more, ttl).1 ==
            if later <= rows[n].expires then Ok(Grant(rows[n].user, Encode(more), |rows|)) else Err(Expired)
  {
    hide WellLinked, Redeem, Evolves, Encode, TokenOf, FindHash;
    IsTokenOf(rows, sum, bytes, n);
    UnusedIsUnfound(rows, sum(more));
    SameEvolves(rows);
    RedeemTakes(rows, rows, cap, sum, Encode(bytes), later, more, ttl);
  }

  /** A token just issued is taken for its owner up to its expiry, and lapses after it. */
  lemma IssuedIsRedeemable(rows: seq<Row>, cap: nat, sum: Sum, user: string, now: int, bytes: seq<Byte>, ttl: int,
                           later: int, more: seq<Byte>)
    requires WellLinked(rows) && IsUnused(rows, sum(bytes)) && sum(more) != sum(bytes) && IsUnused(rows, sum(more))
    ensures var stored := Insert(rows, user, sum(bytes), now + ttl);
            && stored.Ok?
            && Redeem(stored.value, stored.value, cap, sum, Encode(bytes), later, more, ttl).1 ==
               if later <= now + ttl then Ok(Grant(user, Encode(more), |rows| + 1)) else Err(Expired)
  {
    hide WellLinked, Redeem, Evolves, Encode, FindHash;
    UnusedIsUnfound(rows, sum(bytes));
    var stored := Insert(rows, user, sum(bytes), now + ttl).value;
    InsertKeeps(rows, user, sum(bytes), now + ttl);
    LiveIsRedeemable(stored, |rows|, cap, sum, bytes, later, more, ttl);
  }

  /** So is the one token a password change leaves, up to the expiry it was given. */
  lemma ReplacedIsRedeemable(rows: seq<Row>, cap: nat, sum: Sum, user: string, bytes: seq<Byte>, expires: int,
                             later: int, more: seq<Byte>, ttl: int)
    requires WellLinked(rows) && IsUnused(rows, sum(bytes)) && sum(more) != sum(bytes) && IsUnused(rows, sum(more))
    ensures var replaced := ReplaceAll(user)(rows, sum(bytes), expires);
            && replaced.Ok?
            && Redeem(replaced.value, replaced.value, cap, sum, Encode(bytes), later, more, ttl).1 ==
               if later <= expires then Ok(Grant(user, Encode(more), |rows| + 1)) else Err(Expired)
  {
    hide WellLinked, Redeem, Evolves, Encode, FindHash;
    var swept := Sweep(rows, user, |rows|);
    SweepKeeps(rows, user, |rows|);
    UnusedIsUnfound(swept, sum(bytes));
    InsertKeeps(swept, user, sum(bytes), expires);
    var replaced := ReplaceAll(user)(rows, sum(bytes), expires).value;
    LiveIsRedeemable(replaced, |rows|, cap, sum, bytes, later, more, ttl);
  }

  /** The row a refresh stores. */
  lemma GrantedRowIs(seen: seq<Row>, rows: seq<Row>, cap: nat, sum: Sum, token: string, now: int, bytes: seq<Byte>,
                     ttl: int)
    requires WellLinked(rows) && Evolves(seen, rows)
    requires Redeem(seen, rows, cap, sum, token, now, bytes, ttl).1.Ok?
    ensures var (after, answer) := Redeem(seen, rows, cap, sum, token, now, bytes, ttl);
            && |after| == |rows| + 1 && answer.value.token == Encode(bytes)
            && after[|rows|] == Row(answer.value.user, sum(bytes), now + ttl, false, None)
  {
    hide WellLinked, EndByHash, Encode;
    RedeemTakes(seen, rows, cap, sum, token, now, bytes, ttl);
    var i := TokenOf(seen, sum, token).value;
    assert RowEvolves(seen[i], rows[i], |seen|);
  }

  lemma LiveAt(rows: seq<Row>, n: nat)
    requires n < |rows| && !rows[n].revoked
    ensures Live(rows, n)
  {
  }

  /**
   The token a refresh hands out is taken for the same owner up to ttl after that refresh, and lapses
   after it: a session refreshed in time goes on.
   */
  lemma GrantedIsRedeemable(seen: seq<Row>, rows: seq<Row>, cap: nat, sum: Sum, token: string, now: int,
                            bytes: seq<Byte>, ttl: int, later: int, more: seq<Byte>)
    requires WellLinked(rows) && Evolves(seen, rows)
    requires Redeem(seen, rows, cap, sum, token, now, bytes, ttl).1.Ok?
    requires sum(more) != sum(bytes) && IsUnused(rows, sum(more))
    ensures var (after, answer) := Redeem(seen, rows, cap, sum, token, now, bytes, ttl);
            Redeem(after, after, cap, sum, answer.value.token, later, more, ttl).1 ==
            if later <= now + ttl then Ok(Grant(answer.value.user, Encode(more), |rows| + 1)) else Err(Expired)
  {
    hide WellLinked, Redeem, Encode, Live;
    GrantedRowIs(seen, rows, cap, sum, token, now, bytes, ttl);
    RedeemKeeps(seen, rows, cap, sum, token, now, bytes, ttl);
    var after := Redeem(seen, rows, cap, sum, token, now, bytes, ttl).0;
    forall i | 0 <= i < |after| ensures after[i].hash != sum(more) {
      assert i < |rows| ==> RowEvolves(rows[i], after[i], |rows|);
    }
    LiveAt(after, |rows|);
    LiveIsRedeemable(after, |rows|, cap, sum, bytes, later, more, ttl);
  }

  // ---- the service ----

  class Service {
    const repo: TokenRepo
    const sum: Sum
    const ttl: int

    constructor (tokens: TokenRepo, digest: Sum, lifetime: int)
      ensures repo == tokens && sum == digest && ttl == lifetime
    {
      repo, sum, ttl := tokens, digest, lifetime;
    }

    method Issue(user: string, now: int, bytes: seq<Byte>) returns (r: Result<(string, nat), TokenError>)
      modifies repo`rows
      ensures match Insert(old(repo.rows), user, sum(bytes), now + ttl)
              case Err(e) => r == Err(e) && repo.rows == old(repo.rows)
              case Ok(grown) => r == Ok((Encode(bytes), |old(repo.rows)|)) && repo.rows == grown
    {
      var token := Generate(sum, bytes);
      var stored := repo.InsertToken(user, token.hash, now + ttl);
      match stored
      case Err(e) => return Err(e);
      case Ok(id) => return Ok((token.raw, id));
    }

    /** persist stores the digest as a step of the caller's own transaction; the token is returned only when it did. */
    method IssueInTransaction(cancelled: bool, persist: Persist, now: int, bytes: seq<Byte>)
      returns (r: Result<string, TokenError>)
      modifies repo`rows
      ensures if cancelled then r == Err(Failure) && repo.rows == old(repo.rows)
              else match persist(old(repo.rows), sum(bytes), now + ttl)
                case Err(e) => r == Err(e) && repo.rows == old(repo.rows)
                case Ok(stored) => r == Ok(Encode(bytes)) && repo.rows == stored
    {
      if cancelled {
        return Err(Failure);
      }
      var token := Generate(sum, bytes);
      var stored := persist(repo.rows, token.hash, now + ttl);
      if stored.Err? {
        return Err(stored.error);
      }
      repo.rows := stored.value;
      return Ok(token.raw);
    }

    /** `meanwhile` is the table as other calls leave it while this one is between the check and the rest. */
    method RedeemToken(token: string, now: int, bytes: seq<Byte>, meanwhile: seq<Row>)
      returns (r: Result<Grant, TokenError>)
      requires WellLinked(meanwhile) && Evolves(repo.rows, meanwhile)
      modifies repo`rows
      ensures (repo.rows, r) == Redeem(old(repo.rows), meanwhile, repo.cap, sum, token, now, bytes, ttl)
    {
      var seen := repo.rows;
      repo.rows := meanwhile;
      var hash := HashPresented(sum, token);
      if hash.None? {
        return Err(Invalid);
      }
      var active := GetActive(seen, hash.value, now);
      if active == Err(Invalid) {
        r := EndSession(hash.value);
        return;
      }
      if active.Err? {
        return Err(active.error);
      }
      var made := Generate(sum, bytes);
      var rotated := repo.RotateToken(active.value, made.hash, now + ttl);
      if rotated == Err(Invalid) {
        r := EndSession(hash.value);
        return;
      }
      if rotated.Err? {
        return Err(rotated.error);
      }
      return Ok(Grant(seen[active.value].user, made.raw, rotated.value));
    }

    method EndSession(hash: Digest) returns (r: Result<Grant, TokenError>)
      requires WellLinked(repo.rows)
      modifies repo`rows
      ensures repo.rows == EndByHash(old(repo.rows), hash, repo.cap).0 && r == Err(Invalid)
    {
      var error := repo.RevokeByHash(hash);
      return Err(Invalid);
    }

    method Revoke(token: string)
      requires WellLinked(repo.rows)
      modifies repo`rows
      ensures match HashPresented(sum, token)
              case None => repo.rows == old(repo.rows)
              case Some(hash) => repo.rows == EndByHash(old(repo.rows), hash, repo.cap).0
      ensures Decode(token).None? ==> repo.rows == old(repo.rows)
    {
      var hash := HashPresented(sum, token);
      if hash.None? {
        return;
      }
      var error := repo.RevokeByHash(hash.value);
    }

    method RevokeAll(user: string)
      modifies repo`rows
      ensures repo.rows == Sweep(old(repo.rows), user, |old(repo.rows)|)
    {
      repo.RevokeAllForUser(user);
    }
  }
}
