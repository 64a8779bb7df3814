/** The text of a comment as the server stores it: trimmed, at most 140 characters, no controls. */
module CommentText {
  import opened Options

  const MAX_COMMENT_RUNES := 140

  datatype FieldProblem = Required | TooLong | Invalid

  function CodeOf(c: char): int { c as int }

  /** unicode.IsSpace. */
  predicate IsSpace(c: char) {
    var n := CodeOf(c);
    9 <= n <= 13 || n == 0x20 || n == 0x85 || n == 0xA0 || n == 0x1680 || 0x2000 <= n <= 0x200A
    || n == 0x2028 || n == 0x2029 || n == 0x202F || n == 0x205F || n == 0x3000
  }

  /** unicode.IsControl, and the mark of an unreadable byte. */
  predicate IsRefused(c: char) {
    var n := CodeOf(c);
    n < 0x20 || 0x7F <= n < 0xA0 || n == 0xFFFD
  }

  predicate IsPlain(s: string) { forall c :: c in s ==> c == '\n' || !IsRefused(c) }

  /** strings.ReplaceAll(s, "\r\n", "\n"). */
  function JoinBreaks(s: string): string {
    if s == "" then ""
    else if |s| > 1 && s[0] == '\r' && s[1] == '\n' then "\n" + JoinBreaks(s[2..])
    else [s[0]] + JoinBreaks(s[1..])
  }

  function TrimLeft(s: string): string {
    if s != "" && IsSpace(s[0]) then TrimLeft(s[1..]) else s
  }

  function TrimRight(s: string): string {
    if s != "" && IsSpace(s[|s| - 1]) then TrimRight(s[..|s| - 1]) else s
  }

  function Trim(s: string): string { TrimRight(TrimLeft(s)) }

  function Clean(s: string, photo: bool): Result<string, FieldProblem> {
    var t := Trim(JoinBreaks(s));
    if t == "" then (if photo then Ok("") else Err(Required))
    else if |t| > MAX_COMMENT_RUNES then Err(TooLong)
    else if !IsPlain(t) then Err(Invalid)
    else Ok(t)
  }

  method CleanComment(s: string, photo: bool) returns (r: Result<string, FieldProblem>)
    ensures r == Clean(s, photo)
  {
    var t := Trim(JoinBreaks(s));
    if t == "" && photo {
      return Ok("");
    }
    if t == "" {
      return Err(Required);
    }
    if |t| > MAX_COMMENT_RUNES {
      return Err(TooLong);
    }
    for i := 0 to |t|
      invariant IsPlain(t[..i])
    {
      if t[i] == '\n' {
        continue;
      }
      if IsRefused(t[i]) {
        assert t[i] in t;
        return Err(Invalid);
      }
    }
    assert t[..|t|] == t;
    return Ok(t);
  }

  // ---- what an accepted text looks like ----

  predicate IsTrimmed(s: string) { s == "" || (!IsSpace(s[0]) && !IsSpace(s[|s| - 1])) }

  lemma {:induction false} TrimLeftTrims(s: string)
    ensures var t := TrimLeft(s); t == "" || !IsSpace(t[0])
  {
    if s == "" || !IsSpace(s[0]) {
    } else {
      TrimLeftTrims(s[1..]);
    }
  }

  lemma {:induction false} TrimRightTrims(s: string)
    ensures var t := TrimRight(s); (t == "" || !IsSpace(t[|t| - 1])) && t <= s
  {
    if s == "" || !IsSpace(s[|s| - 1]) {
    } else {
      TrimRightTrims(s[..|s| - 1]);
    }
  }

  lemma TrimTrims(s: string)
    ensures IsTrimmed(Trim(s))
  {
    TrimLeftTrims(s);
    TrimRightTrims(TrimLeft(s));
  }

  lemma {:induction false} JoinBreaksWithoutReturns(s: string)
    requires '\r' !in s
    ensures JoinBreaks(s) == s
  {
    if s == "" {
    } else {
      assert s[0] in s;
      JoinBreaksWithoutReturns(s[1..]);
    }
  }

  /** A text the server accepted is accepted again as it is. */
  lemma AcceptedIsFixed(s: string, photo: bool)
    requires Clean(s, photo).Ok?
    ensures Clean(Clean(s, photo).value, photo) == Clean(s, photo)
    ensures var t := Clean(s, photo).value;
            IsTrimmed(t) && |t| <= MAX_COMMENT_RUNES && IsPlain(t) && (t == "" ==> photo)
  {
    var t := Clean(s, photo).value;
    TrimTrims(JoinBreaks(s));
    JoinBreaksWithoutReturns(t);
    assert TrimLeft(t) == t && TrimRight(t) == t;
  }

  /** A text with its line breaks written as a return and a line feed. */
  function WithReturns(s: string): string {
    if s == "" then "" else (if s[0] == '\n' then "\r\n" else [s[0]]) + WithReturns(s[1..])
  }

  lemma {:induction false} JoinOfReturns(s: string)
    requires '\r' !in s
    ensures JoinBreaks(WithReturns(s)) == s
  {
    if s == "" {
    } else {
      assert s[0] in s;
      JoinOfReturns(s[1..]);
      var w := WithReturns(s);
      if s[0] == '\n' {
        assert w[2..] == WithReturns(s[1..]);
      } else {
        assert w[1..] == WithReturns(s[1..]);
      }
    }
  }

  /** How the phone writes its line breaks does not matter. */
  lemma ReturnsDoNotMatter(s: string, photo: bool)
    requires '\r' !in s
    ensures Clean(WithReturns(s), photo) == Clean(s, photo)
  {
    JoinOfReturns(s);
    JoinBreaksWithoutReturns(s);
  }

  // ---- what is accepted, from the text sent ----

  /** A text with no return before a line feed is left as it is. */
  lemma {:induction false} NothingToJoin(s: string)
    requires forall i :: 0 <= i < |s| - 1 ==> !(s[i] == '\r' && s[i + 1] == '\n')
    ensures JoinBreaks(s) == s
  {
    if s == "" {
    } else {
      assert |s| > 1 ==> !(s[0] == '\r' && s[0 + 1] == '\n');
      forall i | 0 <= i < |s[1..]| - 1 ensures !(s[1..][i] == '\r' && s[1..][i + 1] == '\n') {
        assert !(s[i + 1] == '\r' && s[i + 1 + 1] == '\n');
      }
      NothingToJoin(s[1..]);
    }
  }

  /** And wherever one is, the two are one line feed. */
  lemma {:induction false} JoinsAt(a: string, b: string)
    ensures JoinBreaks(a + "\r\n" + b) == JoinBreaks(a) + "\n" + JoinBreaks(b)
  {
    var s := a + "\r\n" + b;
    if a == "" {
      assert s[2..] == b;
    } else if |a| > 1 && a[0] == '\r' && a[1] == '\n' {
      assert s[2..] == a[2..] + "\r\n" + b;
      JoinsAt(a[2..], b);
    } else {
      assert s[1..] == a[1..] + "\r\n" + b;
      JoinsAt(a[1..], b);
    }
  }

  predicate AllSpace(s: string) { forall c :: c in s ==> IsSpace(c) }

  lemma {:induction false} LeftIs(s: string) returns (i: nat)
    ensures i <= |s| && TrimLeft(s) == s[i..] && AllSpace(s[..i])
  {
    if s != "" && IsSpace(s[0]) {
      var j := LeftIs(s[1..]);
      i := j + 1;
      assert s[1..][j..] == s[i..] && s[..i] == [s[0]] + s[1..][..j];
    } else {
      i := 0;
    }
  }

  lemma {:induction false} RightIs(s: string) returns (k: nat)
    ensures k <= |s| && TrimRight(s) == s[..k] && AllSpace(s[k..])
  {
    if s != "" && IsSpace(s[|s| - 1]) {
      var rest := s[..|s| - 1];
      k := RightIs(rest);
      assert rest[..k] == s[..k] && s[k..] == rest[k..] + [s[|s| - 1]];
    } else {
      k := |s|;
    }
  }

  /** Trimming cuts spaces off both ends and leaves none there. */
  lemma TrimIs(s: string) returns (i: nat, k: nat)
    ensures i <= k <= |s| && Trim(s) == s[i..k] && IsTrimmed(s[i..k]) && AllSpace(s[..i]) && AllSpace(s[k..])
  {
    TrimTrims(s);
    i := LeftIs(s);
    var j := RightIs(s[i..]);
    k := i + j;
    assert s[i..][..j] == s[i..k] && s[i..][j..] == s[k..];
  }

  /** No longer stretch of the text neither starts nor ends with a space. */
  lemma TrimIsLongest(s: string, a: nat, b: nat)
    requires a <= b <= |s| && IsTrimmed(s[a..b])
    ensures b - a <= |Trim(s)|
  {
    var i, k := TrimIs(s);
    forall x | 0 <= x < |s| && (x < i || k <= x) ensures IsSpace(s[x]) {
      assert s[x] in (if x < i then s[..i] else s[k..]) by {
        assert s[x] == if x < i then s[..i][x] else s[k..][x - k];
      }
    }
    if a < b {
      assert !IsSpace(s[a]) && !IsSpace(s[b - 1]);
    }
  }

  /** Unicode's control characters (category Cc) and U+FFFD. */
  const CONTROLS := (set n | 0x00 <= n <= 0x1F) + (set n | 0x7F <= n <= 0x9F) + {0xFFFD}

  /** Unicode's White_Space characters. */
  const SPACES :=
    {0x09, 0x0A, 0x0B, 0x0C, 0x0D, 0x20, 0x85, 0xA0, 0x1680, 0x2028, 0x2029, 0x202F, 0x205F, 0x3000}
    + (set n | 0x2000 <= n <= 0x200A)

  /** The spaces that are cut are those. */
  lemma SpacesAre(c: char)
    ensures IsSpace(c) <==> c as int in SPACES
  {
  }

  /**
   A text, its line breaks joined, is answered by its longest stretch that neither starts nor ends with a
   space: required when that is empty and there is no photo, too long past 140, invalid with a control
   character but a line break in it, and accepted as that stretch else.
   */
  lemma CleanIs(s: string, photo: bool) returns (i: nat, k: nat)
    ensures var joined := JoinBreaks(s);
            && i <= k <= |joined| && AllSpace(joined[..i]) && AllSpace(joined[k..]) && IsTrimmed(joined[i..k])
            && var text := joined[i..k];
               && (Clean(s, photo) == Err(Required) <==> text == "" && !photo)
               && (Clean(s, photo) == Err(TooLong) <==> |text| > 140)
               && (Clean(s, photo) == Err(Invalid) <==>
                   |text| <= 140 && exists c :: c in text && c != '\n' && c as int in CONTROLS)
               && (Clean(s, photo).Ok? ==> Clean(s, photo).value == text)
  {
    i, k := TrimIs(JoinBreaks(s));
    hide JoinBreaks, Trim;
    forall c ensures IsRefused(c) <==> c as int in CONTROLS {
    }
    hide IsRefused;
  }
}
