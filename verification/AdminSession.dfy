/**
 The admin page's signed session value: an account id, the second it ends and a signature, joined by
 dots. The keyed hash and the id's text form are parameters.
 */
module AdminSession {
  import opened Options
  import opened Base64
  import opened Decimals

  /** An account id, a UUID's sixteen bytes. */
  datatype Id = Id(bytes: seq<Byte>)

  /** How an id is printed and read, and the keyed hash behind a signature. */
  datatype Keys = Keys(show: Id -> string, parse: string -> Option<Id>, mac: string -> seq<Byte>)

  const SECOND := 1_000_000_000
  const SESSION_TTL := 8 * 3600 * SECOND

  /** The Unix second of a time in nanoseconds. */
  function Unix(nanos: int): int { nanos / SECOND }

  function Sign(k: Keys, purpose: string, payload: string): string {
    Encode(k.mac("rndmroll-admin-" + purpose + ":" + payload))
  }

  function Signed(k: Keys, payload: string): string { payload + "." + Sign(k, "session", payload) }

  function NewSession(k: Keys, id: Id, now: int): string {
    Signed(k, k.show(id) + "." + FormatInt(Unix(now + SESSION_TTL)))
  }

  // ---- splitting on dots ----

  predicate DotFree(s: string) { forall c :: c in s ==> c != '.' }

  function Split(s: string): (parts: seq<string>)
    ensures |parts| > 0
  {
    if s == "" then [""]
    else
      var rest := Split(s[1..]);
      if s[0] == '.' then [""] + rest else [[s[0]] + rest[0]] + rest[1..]
  }

  function Join(parts: seq<string>): string
    requires |parts| > 0
  {
    if |parts| == 1 then parts[0] else parts[0] + "." + Join(parts[1..])
  }

  /** Joining the parts gives the string back, and no part has a dot. */
  lemma {:induction false} JoinOfSplit(s: string)
    ensures Join(Split(s)) == s && forall p :: p in Split(s) ==> DotFree(p)
  {
    if s == "" {
    } else {
      JoinOfSplit(s[1..]);
      var rest := Split(s[1..]);
      assert rest[0] in rest;
      if s[0] == '.' {
        assert ([""] + rest)[1..] == rest;
      } else {
        assert ([[s[0]] + rest[0]] + rest[1..])[1..] == rest[1..];
      }
    }
  }

  lemma {:induction false} SplitOfPart(s: string)
    requires DotFree(s)
    ensures Split(s) == [s]
  {
    if s == "" {
    } else {
      assert s[0] in s && forall c :: c in s[1..] ==> c in s;
      SplitOfPart(s[1..]);
      assert [s[0]] + s[1..] == s;
    }
  }

  lemma {:induction false} SplitFirst(s: string, rest: string)
    requires DotFree(s)
    ensures Split(s + "." + rest) == [s] + Split(rest)
  {
    if s == "" {
      assert (s + "." + rest)[1..] == rest;
    } else {
      assert s[0] in s && forall c :: c in s[1..] ==> c in s;
      SplitFirst(s[1..], rest);
      assert (s + "." + rest)[1..] == s[1..] + "." + rest && [s[0]] + s[1..] == s;
      assert ([s[1..]] + Split(rest))[1..] == Split(rest);
    }
  }

  lemma SplitOfThree(a: string, b: string, c: string)
    requires DotFree(a) && DotFree(b) && DotFree(c)
    ensures Split(a + "." + b + "." + c) == [a, b, c]
  {
    assert a + "." + b + "." + c == a + "." + (b + "." + c);
    SplitFirst(a, b + "." + c);
    SplitFirst(b, c);
    SplitOfPart(c);
  }

  // ---- reading a value ----

  function SessionUser(k: Keys, value: string, now: int): Option<Id> {
    var parts := Split(value);
    if |parts| != 3 then None
    else
      var payload := parts[0] + "." + parts[1];
      if parts[2] != Sign(k, "session", payload) then None
      else
        match ParseInt64(parts[1])
        case None => None
        case Some(end) => if Unix(now) >= end then None else k.parse(parts[0])
  }

  lemma SignatureIsDotFree(k: Keys, payload: string)
    ensures DotFree(Sign(k, "session", payload))
  {
    var s := Sign(k, "session", payload);
    assert InAlphabet(s);
    forall c | c in s ensures c != '.' {
      assert SymbolValue(c).Some?;
    }
  }

  /** Reading a signed pair of dot-free parts gives the id in it until the second it names. */
  lemma ReadOfSigned(k: Keys, id: string, end: string, now: int)
    requires DotFree(id) && DotFree(end)
    ensures SessionUser(k, Signed(k, id + "." + end), now) ==
            match ParseInt64(end) case None => None case Some(e) => if Unix(now) < e then k.parse(id) else None
  {
    SignatureIsDotFree(k, id + "." + end);
    SplitOfThree(id, end, Sign(k, "session", id + "." + end));
  }

  lemma JoinOfThree(parts: seq<string>)
    requires |parts| == 3
    ensures Join(parts) == parts[0] + "." + parts[1] + "." + parts[2]
  {
    var rest := parts[1..];
    assert |rest| == 2 && rest[0] == parts[1] && rest[1..] == [parts[2]];
    assert Join(rest) == parts[1] + "." + parts[2];
  }

  /** Whatever is accepted is a signed, unexpired pair and nothing else. */
  lemma AcceptedIsSigned(k: Keys, value: string, now: int) returns (id: string, end: string)
    requires SessionUser(k, value, now).Some?
    ensures DotFree(id) && DotFree(end) && value == Signed(k, id + "." + end)
    ensures ParseInt64(end).Some? && Unix(now) < ParseInt64(end).value
    ensures k.parse(id) == SessionUser(k, value, now)
  {
    hide Join, Split, Sign, ParseInt64, DotFree;
    JoinOfSplit(value);
    var parts := Split(value);
    id, end := parts[0], parts[1];
    JoinOfThree(parts);
    assert parts[0] in parts && parts[1] in parts;
  }

  /** The id's text reads back and has no dot, as a UUID's does. */
  predicate Prints(k: Keys, id: Id) { DotFree(k.show(id)) && k.parse(k.show(id)) == Some(id) }

  /** A session names its account exactly until the clock's second is 28800, eight hours, past that of its making. */
  lemma SessionLastsEightHours(k: Keys, id: Id, t: int, now: int)
    requires Prints(k, id) && IsInt64(Unix(t) + 28800)
    ensures SessionUser(k, NewSession(k, id, t), now) == if Unix(now) < Unix(t) + 28800 then Some(id) else None
  {
    hide SessionUser;
    assert Unix(t + SESSION_TTL) == Unix(t) + 28800;
    ParseOfFormat(Unix(t + SESSION_TTL));
    ReadOfSigned(k, k.show(id), FormatInt(Unix(t + SESSION_TTL)), now);
  }

  // ---- a signature is for one payload ----

  /** No two texts have the same keyed hash. */
  ghost predicate Injective(k: Keys) { forall a, b :: k.mac(a) == k.mac(b) ==> a == b }

  lemma SignsOnePayload(k: Keys, p: string, q: string)
    requires Injective(k) && Sign(k, "session", p) == Sign(k, "session", q)
    ensures p == q
  {
    var lead := "rndmroll-admin-" + "session" + ":";
    EncodeInjective(k.mac(lead + p), k.mac(lead + q));
    assert lead + p == lead + q;
    assert (lead + p)[|lead|..] == p && (lead + q)[|lead|..] == q;
  }

  lemma AfterIsDotFree(a: string, s: string)
    requires DotFree(s)
    ensures forall x :: |a| < x < |a + "." + s| ==> (a + "." + s)[x] != '.'
  {
    forall x | |a| < x < |a + "." + s| ensures (a + "." + s)[x] != '.' {
      assert (a + "." + s)[x] == s[x - |a| - 1];
      assert s[x - |a| - 1] in s;
    }
  }

  /** What stands before the last dot, and after it. */
  lemma LastDotIsOne(a: string, s: string, b: string, t: string)
    requires DotFree(s) && DotFree(t) && a + "." + s == b + "." + t
    ensures a == b && s == t
  {
    var v := a + "." + s;
    AfterIsDotFree(a, s);
    AfterIsDotFree(b, t);
    assert v[|a|] == '.' && (b + "." + t)[|b|] == '.';
    assert |a| == |b|;
    assert v[..|a|] == a && (b + "." + t)[..|b|] == b && v[|a| + 1..] == s && (b + "." + t)[|b| + 1..] == t;
  }

  /** With another id or another second before it, a session's signature is refused. */
  lemma ChangedIsRefused(k: Keys, payload: string, changed: string, now: int)
    requires Injective(k) && changed != payload
    ensures SessionUser(k, changed + "." + Sign(k, "session", payload), now).None?
  {
    hide SessionUser, Sign, DotFree;
    var value := changed + "." + Sign(k, "session", payload);
    if SessionUser(k, value, now).Some? {
      var id, end := AcceptedIsSigned(k, value, now);
      SignatureIsDotFree(k, payload);
      SignatureIsDotFree(k, id + "." + end);
      LastDotIsOne(changed, Sign(k, "session", payload), id + "." + end, Sign(k, "session", id + "." + end));
      SignsOnePayload(k, payload, id + "." + end);
    }
  }
}
