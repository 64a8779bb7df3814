/** Joining a later page of the Board to the days already shown. */
module BoardMerge {
  import opened Sequences

  datatype Label = Today | Yesterday | Earlier

  datatype Card = Card(id: string, day: int, title: string)

  datatype BoardDay = BoardDay(day: int, tag: Label, cards: seq<Card>)

  predicate HasCard(cards: seq<Card>, id: string) { exists c :: c in cards && c.id == id }

  function PushCard(cards: seq<Card>, c: Card): seq<Card> {
    if HasCard(cards, c.id) then cards else cards + [c]
  }

  function PushCards(cards: seq<Card>, more: seq<Card>): seq<Card> {
    if more == [] then cards else PushCard(PushCards(cards, more[..|more| - 1]), more[|more| - 1])
  }

  /** The first index with that date, or the length. */
  function FindDay(days: seq<BoardDay>, day: int): (k: nat)
    ensures k <= |days|
    ensures k < |days| ==> days[k].day == day
    ensures forall i :: 0 <= i < k ==> days[i].day != day
  {
    if days == [] || days[0].day == day then 0 else 1 + FindDay(days[1..], day)
  }

  function AddDay(days: seq<BoardDay>, d: BoardDay): seq<BoardDay> {
    var k := FindDay(days, d.day);
    if k == |days| then days + [d] else days[k := days[k].(cards := PushCards(days[k].cards, d.cards))]
  }

  function MergeDays(current: seq<BoardDay>, next: seq<BoardDay>): seq<BoardDay> {
    if next == [] then current else AddDay(MergeDays(current, next[..|next| - 1]), next[|next| - 1])
  }

  method JoinCards(cards: seq<Card>, more: seq<Card>) returns (out: seq<Card>)
    ensures out == PushCards(cards, more)
  {
    out := cards;
    for i := 0 to |more|
      invariant out == PushCards(cards, more[..i])
    {
      assert more[..i + 1][..i] == more[..i];
      if !HasCard(out, more[i].id) {
        out := out + [more[i]];
      }
    }
    assert more[..|more|] == more;
  }

  lemma FoundIs(days: seq<BoardDay>, day: int, k: nat)
    requires k <= |days| && (k < |days| ==> days[k].day == day) && forall i :: 0 <= i < k ==> days[i].day != day
    ensures FindDay(days, day) == k
  {
  }

  method JoinDays(current: seq<BoardDay>, next: seq<BoardDay>) returns (out: seq<BoardDay>)
    ensures out == MergeDays(current, next)
  {
    hide PushCards;
    out := current;
    for i := 0 to |next|
      invariant out == MergeDays(current, next[..i])
    {
      assert next[..i + 1][..i] == next[..i];
      var day := next[i];
      var k := 0;
      while k < |out| && out[k].day != day.day
        invariant k <= |out| && forall j :: 0 <= j < k ==> out[j].day != day.day
      {
        k := k + 1;
      }
      FoundIs(out, day.day, k);
      if k == |out| {
        out := out + [day];
        continue;
      }
      var pushed := JoinCards(out[k].cards, day.cards);
      out := out[k := out[k].(cards := pushed)];
    }
    assert next[..|next|] == next;
  }

  // ---- cards ----

  lemma HasCardSnoc(cards: seq<Card>, c: Card, id: string)
    ensures HasCard(cards + [c], id) <==> HasCard(cards, id) || id == c.id
  {
    assert c in cards + [c];
    if HasCard(cards, id) {
      var x :| x in cards && x.id == id;
      assert x in cards + [c];
    }
  }

  lemma {:induction false} PushKeeps(cards: seq<Card>, more: seq<Card>)
    ensures cards <= PushCards(cards, more)
    ensures forall id :: HasCard(PushCards(cards, more), id) <==> HasCard(cards, id) || HasCard(more, id)
  {
    if more == [] {
    } else {
      var rest, c := more[..|more| - 1], more[|more| - 1];
      PushKeeps(cards, rest);
      var mid := PushCards(cards, rest);
      forall id ensures HasCard(more, id) <==> HasCard(rest, id) || id == c.id {
        HasCardSnoc(rest, c, id);
        assert more == rest + [c];
      }
      forall id ensures HasCard(PushCard(mid, c), id) <==> HasCard(mid, id) || id == c.id {
        HasCardSnoc(mid, c, id);
      }
    }
  }

  ghost predicate DistinctCards(cards: seq<Card>) {
    forall i, j :: 0 <= i < j < |cards| ==> cards[i].id != cards[j].id
  }

  function NewTo(cards: seq<Card>): Card -> bool { (c: Card) => !HasCard(cards, c.id) }

  lemma LastIsOther(rest: seq<Card>, c: Card)
    requires DistinctCards(rest + [c])
    ensures !HasCard(rest, c.id)
  {
    forall x | x in rest ensures x.id != c.id {
      var i :| 0 <= i < |rest| && rest[i] == x;
      assert (rest + [c])[i] == x && (rest + [c])[|rest|] == c;
    }
  }

  /** Pushing cards that differ among themselves appends the ones not shown yet. */
  lemma {:induction false} PushIsAppend(cards: seq<Card>, more: seq<Card>)
    requires DistinctCards(more)
    ensures PushCards(cards, more) == cards + Filter(more, NewTo(cards))
  {
    hide Filter, HasCard;
    if more == [] {
      FilterAll(more, NewTo(cards));
    } else {
      var rest, c := more[..|more| - 1], more[|more| - 1];
      assert more == rest + [c];
      PushIsAppend(cards, rest);
      FilterSnoc(rest, c, NewTo(cards));
      PushKeeps(cards, rest);
      assert !HasCard(rest, c.id) by {
        LastIsOther(rest, c);
      }
    }
  }

  lemma {:induction false} PushKeepsDistinct(cards: seq<Card>, more: seq<Card>)
    requires DistinctCards(cards)
    ensures DistinctCards(PushCards(cards, more))
  {
    if more == [] {
    } else {
      PushKeepsDistinct(cards, more[..|more| - 1]);
    }
  }

  lemma {:induction false} PushOfPushed(cards: seq<Card>, more: seq<Card>)
    requires forall id :: HasCard(more, id) ==> HasCard(cards, id)
    ensures PushCards(cards, more) == cards
  {
    if more == [] {
    } else {
      var rest := more[..|more| - 1];
      forall id | HasCard(rest, id) ensures HasCard(cards, id) {
        assert HasCard(more, id);
      }
      PushOfPushed(cards, rest);
      assert HasCard(more, more[|more| - 1].id);
    }
  }

  lemma PushOfPush(a: seq<Card>, b: seq<Card>, x: Card)
    ensures PushCard(PushCards(a, b), x) == PushCards(a, PushCard(b, x))
  {
    hide HasCard;
    PushKeeps(a, b);
    if !HasCard(b, x.id) {
      assert (b + [x])[..|b|] == b;
    }
  }

  lemma {:induction false} PushAssociates(a: seq<Card>, b: seq<Card>, c: seq<Card>)
    ensures PushCards(PushCards(a, b), c) == PushCards(a, PushCards(b, c))
  {
    hide HasCard;
    if c == [] {
    } else {
      var rest, x := c[..|c| - 1], c[|c| - 1];
      PushAssociates(a, b, rest);
      PushKeeps(a, PushCards(b, rest));
      PushOfPush(a, PushCards(b, rest), x);
    }
  }

  // ---- days ----

  predicate HasDay(days: seq<BoardDay>, day: int) { exists d :: d in days && d.day == day }

  lemma FindIs(days: seq<BoardDay>, day: int)
    ensures FindDay(days, day) < |days| <==> HasDay(days, day)
  {
    if FindDay(days, day) < |days| {
      assert days[FindDay(days, day)] in days;
    }
  }

  ghost predicate DistinctDays(days: seq<BoardDay>) {
    forall i, j :: 0 <= i < j < |days| ==> days[i].day != days[j].day
  }

  /** Days each have cards of their own, none twice. */
  ghost predicate Proper(days: seq<BoardDay>) {
    DistinctDays(days) && forall d :: d in days ==> DistinctCards(d.cards)
  }

  /** The cards shown on a date. */
  function CardsOn(days: seq<BoardDay>, day: int): seq<Card> {
    var k := FindDay(days, day);
    if k < |days| then days[k].cards else []
  }

  function Grown(d: BoardDay, next: seq<BoardDay>): BoardDay {
    var more := CardsOn(next, d.day);
    d.(cards := d.cards + Filter(more, NewTo(d.cards)))
  }

  function GrownAll(current: seq<BoardDay>, next: seq<BoardDay>): (r: seq<BoardDay>)
    ensures |r| == |current| && forall i :: 0 <= i < |r| ==> r[i].day == current[i].day
  {
    seq(|current|, i requires 0 <= i < |current| => Grown(current[i], next))
  }

  function NewDay(days: seq<BoardDay>): BoardDay -> bool { (d: BoardDay) => !HasDay(days, d.day) }

  /** The ordered union: every shown day with its new cards after its own, then the days not shown yet. */
  function Union(current: seq<BoardDay>, next: seq<BoardDay>): seq<BoardDay> {
    GrownAll(current, next) + Filter(next, NewDay(current))
  }

  lemma CardsOnSnoc(days: seq<BoardDay>, d: BoardDay, day: int)
    requires !HasDay(days, d.day)
    ensures CardsOn(days + [d], day) == if day == d.day then d.cards else CardsOn(days, day)
  {
    FindIs(days, day);
    var k := FindDay(days, day);
    FoundIs(days + [d], day, if day == d.day then |days| else if k < |days| then k else |days| + 1);
  }

  lemma LastDayIsOther(rest: seq<BoardDay>, d: BoardDay)
    requires Proper(rest + [d])
    ensures Proper(rest) && !HasDay(rest, d.day) && DistinctCards(d.cards)
  {
    var days := rest + [d];
    assert days[|rest|] == d;
    forall i, j | 0 <= i < j < |rest| ensures rest[i].day != rest[j].day {
      assert days[i].day != days[j].day;
    }
    forall x | x in rest ensures x.day != d.day && DistinctCards(x.cards) {
      var i :| 0 <= i < |rest| && rest[i] == x;
      assert days[i] == x;
    }
  }

  lemma UnionOfNothing(current: seq<BoardDay>)
    ensures Union(current, []) == current
  {
    forall i | 0 <= i < |current| ensures Grown(current[i], []) == current[i] {
      assert CardsOn([], current[i].day) == [];
    }
  }

  lemma NotInUnion(current: seq<BoardDay>, rest: seq<BoardDay>, day: int)
    requires !HasDay(current, day) && !HasDay(rest, day)
    ensures !HasDay(Union(current, rest), day)
  {
    var u := Union(current, rest);
    forall x | x in u ensures x.day != day {
      var i :| 0 <= i < |u| && u[i] == x;
      if i < |current| {
        assert current[i] in current;
      } else {
        assert u[i] in Filter(rest, NewDay(current));
      }
    }
  }

  lemma AddOfNew(days: seq<BoardDay>, d: BoardDay)
    requires !HasDay(days, d.day)
    ensures AddDay(days, d) == days + [d]
  {
    FindIs(days, d.day);
  }

  lemma GrownAlike(current: seq<BoardDay>, rest: seq<BoardDay>, d: BoardDay, i: nat)
    requires !HasDay(rest, d.day) && i < |current| && current[i].day != d.day
    ensures GrownAll(current, rest + [d])[i] == GrownAll(current, rest)[i]
  {
    hide Filter, HasDay, CardsOn;
    CardsOnSnoc(rest, d, current[i].day);
  }

  lemma NothingOn(days: seq<BoardDay>, day: int)
    requires !HasDay(days, day)
    ensures CardsOn(days, day) == []
  {
    FindIs(days, day);
  }

  lemma GrownMore(current: seq<BoardDay>, rest: seq<BoardDay>, d: BoardDay, i: nat)
    requires !HasDay(rest, d.day) && DistinctCards(d.cards) && i < |current| && current[i].day == d.day
    ensures GrownAll(current, rest)[i] == current[i]
    ensures GrownAll(current, rest + [d])[i] == current[i].(cards := PushCards(current[i].cards, d.cards))
  {
    hide Filter, HasDay, CardsOn, PushCards;
    CardsOnSnoc(rest, d, d.day);
    NothingOn(rest, d.day);
    FilterAll([], NewTo(current[i].cards));
    PushIsAppend(current[i].cards, d.cards);
  }

  lemma UnionSnoc(current: seq<BoardDay>, rest: seq<BoardDay>, d: BoardDay)
    requires DistinctDays(current) && !HasDay(rest, d.day) && DistinctCards(d.cards)
    ensures AddDay(Union(current, rest), d) == Union(current, rest + [d])
  {
    hide Filter, HasDay, PushCards, GrownAll;
    var before, grown := GrownAll(current, rest), GrownAll(current, rest + [d]);
    FilterSnoc(rest, d, NewDay(current));
    forall i | 0 <= i < |current| && current[i].day != d.day ensures grown[i] == before[i] {
      GrownAlike(current, rest, d, i);
    }
    FindIs(current, d.day);
    var k := FindDay(current, d.day);
    if k < |current| {
      FoundIs(Union(current, rest), d.day, k);
      GrownMore(current, rest, d, k);
      assert grown == before[k := grown[k]];
    } else {
      assert grown == before;
      NotInUnion(current, rest, d.day);
      AddOfNew(Union(current, rest), d);
    }
  }

  /** Joining a page is the ordered union of what is shown and what arrives. */
  lemma {:induction false} MergeIsUnion(current: seq<BoardDay>, next: seq<BoardDay>)
    requires DistinctDays(current) && Proper(next)
    ensures MergeDays(current, next) == Union(current, next)
  {
    hide Filter, HasDay, CardsOn, PushCards, HasCard;
    if next == [] {
      UnionOfNothing(current);
    } else {
      var rest, d := next[..|next| - 1], next[|next| - 1];
      assert next == rest + [d];
      LastDayIsOther(rest, d);
      MergeIsUnion(current, rest);
      UnionSnoc(current, rest, d);
    }
  }

  /** What is shown stays where it is: the dates are a prefix, and so are each date's cards. */
  ghost predicate Extends(longer: seq<BoardDay>, shorter: seq<BoardDay>) {
    |shorter| <= |longer| &&
    forall i :: 0 <= i < |shorter| ==>
                  longer[i].day == shorter[i].day && longer[i].tag == shorter[i].tag &&
                  shorter[i].cards <= longer[i].cards
  }

  /** Joining never moves, drops or repeats what is shown, whatever arrives. */
  lemma {:induction false} MergeKeepsShown(current: seq<BoardDay>, next: seq<BoardDay>)
    ensures Extends(MergeDays(current, next), current)
  {
    if next == [] {
    } else {
      var rest, d := next[..|next| - 1], next[|next| - 1];
      MergeKeepsShown(current, rest);
      var mid := MergeDays(current, rest);
      var k := FindDay(mid, d.day);
      if k < |mid| {
        PushKeeps(mid[k].cards, d.cards);
      }
    }
  }

  lemma AddKeepsProper(days: seq<BoardDay>, d: BoardDay)
    requires Proper(days) && DistinctCards(d.cards)
    ensures Proper(AddDay(days, d))
  {
    hide PushCards, DistinctCards;
    var k := FindDay(days, d.day);
    if k < |days| {
      PushKeepsDistinct(days[k].cards, d.cards);
    }
  }

  /** Joined days are distinct, and so are each day's cards. */
  lemma {:induction false} MergeKeepsProper(current: seq<BoardDay>, next: seq<BoardDay>)
    requires Proper(current) && forall d :: d in next ==> DistinctCards(d.cards)
    ensures Proper(MergeDays(current, next))
  {
    hide AddDay, DistinctCards, DistinctDays;
    if next == [] {
    } else {
      MergeKeepsProper(current, next[..|next| - 1]);
      AddKeepsProper(MergeDays(current, next[..|next| - 1]), next[|next| - 1]);
    }
  }

  /** A day whose every card is shown on its date already. */
  ghost predicate Absorbed(days: seq<BoardDay>, d: BoardDay) {
    var k := FindDay(days, d.day);
    k < |days| && forall id :: HasCard(d.cards, id) ==> HasCard(days[k].cards, id)
  }

  lemma AddAbsorbs(days: seq<BoardDay>, d: BoardDay)
    ensures Absorbed(AddDay(days, d), d)
  {
    hide HasCard, PushCards;
    var k := FindDay(days, d.day);
    FoundIs(AddDay(days, d), d.day, k);
    if k < |days| {
      PushKeeps(days[k].cards, d.cards);
    }
  }

  lemma StaysAbsorbed(days: seq<BoardDay>, d: BoardDay, x: BoardDay)
    requires Absorbed(days, d)
    ensures Absorbed(AddDay(days, x), d)
  {
    hide HasCard, PushCards;
    var j := FindDay(days, x.day);
    FoundIs(AddDay(days, x), d.day, FindDay(days, d.day));
    if j < |days| {
      PushKeeps(days[j].cards, x.cards);
    }
  }

  lemma {:induction false} MergeAbsorbs(current: seq<BoardDay>, next: seq<BoardDay>)
    ensures forall d :: d in next ==> Absorbed(MergeDays(current, next), d)
  {
    hide AddDay, Absorbed;
    if next == [] {
    } else {
      var rest, x := next[..|next| - 1], next[|next| - 1];
      MergeAbsorbs(current, rest);
      AddAbsorbs(MergeDays(current, rest), x);
      forall d | d in next ensures Absorbed(MergeDays(current, next), d) {
        if d in rest {
          StaysAbsorbed(MergeDays(current, rest), d, x);
        }
      }
    }
  }

  lemma AddOfAbsorbed(days: seq<BoardDay>, d: BoardDay)
    requires Absorbed(days, d)
    ensures AddDay(days, d) == days
  {
    hide HasCard, PushCards;
    PushOfPushed(days[FindDay(days, d.day)].cards, d.cards);
  }

  lemma {:induction false} MergeOfAbsorbed(days: seq<BoardDay>, next: seq<BoardDay>)
    requires forall d :: d in next ==> Absorbed(days, d)
    ensures MergeDays(days, next) == days
  {
    hide AddDay, Absorbed;
    if next == [] {
    } else {
      MergeOfAbsorbed(days, next[..|next| - 1]);
      AddOfAbsorbed(days, next[|next| - 1]);
    }
  }

  /** The same page joined again changes nothing, whatever the lists. */
  lemma MergeIsIdempotent(current: seq<BoardDay>, next: seq<BoardDay>)
    ensures MergeDays(MergeDays(current, next), next) == MergeDays(current, next)
  {
    MergeAbsorbs(current, next);
    MergeOfAbsorbed(MergeDays(current, next), next);
  }

  lemma {:induction false} MergeConcat(current: seq<BoardDay>, a: seq<BoardDay>, b: seq<BoardDay>)
    ensures MergeDays(current, a + b) == MergeDays(MergeDays(current, a), b)
  {
    hide AddDay;
    if b == [] {
      assert a + b == a;
    } else {
      assert (a + b)[..|a + b| - 1] == a + b[..|b| - 1];
      MergeConcat(current, a, b[..|b| - 1]);
    }
  }

  lemma AddTwice(days: seq<BoardDay>, x: BoardDay, d: BoardDay)
    requires x.day == d.day
    ensures AddDay(AddDay(days, x), d) == AddDay(days, x.(cards := PushCards(x.cards, d.cards)))
  {
    hide PushCards;
    var k := FindDay(days, x.day);
    FoundIs(AddDay(days, x), d.day, k);
    if k < |days| {
      PushAssociates(days[k].cards, x.cards, d.cards);
    }
  }

  lemma AddsCommute(days: seq<BoardDay>, x: BoardDay, d: BoardDay)
    requires x.day != d.day && HasDay(days, d.day)
    ensures AddDay(AddDay(days, x), d) == AddDay(AddDay(days, d), x)
    ensures HasDay(AddDay(days, x), d.day)
  {
    hide PushCards;
    FindIs(days, d.day);
    var j, k := FindDay(days, x.day), FindDay(days, d.day);
    FoundIs(AddDay(days, x), d.day, k);
    FoundIs(AddDay(days, d), x.day, j);
    FindIs(AddDay(days, x), d.day);
  }

  lemma {:induction false} AddMovesOut(days: seq<BoardDay>, next: seq<BoardDay>, d: BoardDay)
    requires HasDay(days, d.day) && !HasDay(next, d.day)
    ensures MergeDays(AddDay(days, d), next) == AddDay(MergeDays(days, next), d)
    ensures HasDay(MergeDays(days, next), d.day)
  {
    hide AddDay;
    if next == [] {
    } else {
      var rest, x := next[..|next| - 1], next[|next| - 1];
      assert forall y :: y in rest ==> y in next;
      AddMovesOut(days, rest, d);
      AddsCommute(MergeDays(days, rest), x, d);
    }
  }

  lemma MergeOfOneMore(current: seq<BoardDay>, next: seq<BoardDay>, d: BoardDay)
    ensures MergeDays(current, next + [d]) == AddDay(MergeDays(current, next), d)
  {
    hide AddDay;
    assert (next + [d])[..|next|] == next;
  }

  lemma OnlyOnce(days: seq<BoardDay>, k: nat)
    requires DistinctDays(days) && k < |days|
    ensures !HasDay(days[k + 1..], days[k].day)
  {
    forall x | x in days[k + 1..] ensures x.day != days[k].day {
      var i :| 0 <= i < |days[k + 1..]| && days[k + 1..][i] == x;
      assert days[k + 1 + i] == x;
    }
  }

  lemma AddAt(current: seq<BoardDay>, before: seq<BoardDay>, x: BoardDay, after: seq<BoardDay>, d: BoardDay)
    requires x.day == d.day && !HasDay(after, d.day)
    ensures MergeDays(current, before + [x.(cards := PushCards(x.cards, d.cards))] + after) ==
            AddDay(MergeDays(current, before + [x] + after), d)
  {
    hide AddDay, PushCards;
    var y := x.(cards := PushCards(x.cards, d.cards));
    var mid := MergeDays(current, before);
    MergeConcat(current, before + [y], after);
    MergeConcat(current, before + [x], after);
    MergeConcat(current, before, [y]);
    MergeConcat(current, before, [x]);
    assert MergeDays(mid, [y]) == AddDay(mid, y);
    assert MergeDays(mid, [x]) == AddDay(mid, x);
    AddTwice(mid, x, d);
    assert HasDay(AddDay(mid, x), d.day) by {
      AddAbsorbs(mid, x);
      FindIs(AddDay(mid, x), x.day);
    }
    AddMovesOut(AddDay(mid, x), after, d);
  }

  lemma AddInside(current: seq<BoardDay>, next: seq<BoardDay>, d: BoardDay)
    requires DistinctDays(next)
    ensures MergeDays(current, AddDay(next, d)) == AddDay(MergeDays(current, next), d)
  {
    hide MergeDays, PushCards;
    var k := FindDay(next, d.day);
    if k == |next| {
      MergeOfOneMore(current, next, d);
    } else {
      var before, x, after := next[..k], next[k], next[k + 1..];
      assert next == before + [x] + after;
      assert !HasDay(after, d.day) by {
        OnlyOnce(next, k);
      }
      AddAt(current, before, x, after, d);
      assert AddDay(next, d) == before + [x.(cards := PushCards(x.cards, d.cards))] + after;
    }
  }

  lemma AddKeepsDistinctDays(days: seq<BoardDay>, d: BoardDay)
    requires DistinctDays(days)
    ensures DistinctDays(AddDay(days, d))
  {
    hide PushCards;
  }

  lemma {:induction false} MergeKeepsDistinctDays(current: seq<BoardDay>, next: seq<BoardDay>)
    requires DistinctDays(current)
    ensures DistinctDays(MergeDays(current, next))
  {
    hide AddDay, DistinctDays;
    if next == [] {
    } else {
      MergeKeepsDistinctDays(current, next[..|next| - 1]);
      AddKeepsDistinctDays(MergeDays(current, next[..|next| - 1]), next[|next| - 1]);
    }
  }

  /** Pages may be joined to each other first or one by one. */
  lemma {:induction false} MergeAssociates(a: seq<BoardDay>, b: seq<BoardDay>, c: seq<BoardDay>)
    requires DistinctDays(b)
    ensures MergeDays(MergeDays(a, b), c) == MergeDays(a, MergeDays(b, c))
  {
    hide AddDay, DistinctDays;
    if c == [] {
    } else {
      var rest, d := c[..|c| - 1], c[|c| - 1];
      MergeAssociates(a, b, rest);
      MergeKeepsDistinctDays(b, rest);
      AddInside(a, MergeDays(b, rest), d);
    }
  }

  ghost predicate AllNew(current: seq<BoardDay>, next: seq<BoardDay>) {
    DistinctDays(next) && forall d :: d in next ==> !HasDay(current, d.day)
  }

  lemma MergeOfNothing(current: seq<BoardDay>)
    ensures MergeDays(current, []) == current
  {
  }

  lemma AllButLastNew(current: seq<BoardDay>, rest: seq<BoardDay>, d: BoardDay)
    requires AllNew(current, rest + [d])
    ensures AllNew(current, rest) && !HasDay(current + rest, d.day)
  {
    var next := rest + [d];
    assert next[|rest|] == d && d in next;
    forall i, j | 0 <= i < j < |rest| ensures rest[i].day != rest[j].day {
      assert next[i].day != next[j].day;
    }
    forall x | x in rest ensures x in next && x.day != d.day {
      var i :| 0 <= i < |rest| && rest[i] == x;
      assert next[i] == x;
    }
    forall x | x in current ensures x.day != d.day {
      assert !HasDay(current, d.day);
    }
  }

  /** A list whose days are all new is appended. */
  lemma {:induction false} MergeOfNewDays(current: seq<BoardDay>, next: seq<BoardDay>)
    requires AllNew(current, next)
    ensures MergeDays(current, next) == current + next
  {
    hide AllNew, AddDay, MergeDays;
    if next == [] {
      MergeOfNothing(current);
    } else {
      var rest, d := next[..|next| - 1], next[|next| - 1];
      assert next == rest + [d];
      AllButLastNew(current, rest, d);
      MergeOfNewDays(current, rest);
      MergeOfOneMore(current, rest, d);
      AddOfNew(current + rest, d);
    }
  }
}
