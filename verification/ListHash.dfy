/** The 64-bit list hash sent with list requests, and the two list hashes built on it. */
module ListHash {

  type U64 = bv64

  function Shr21(x: U64): U64 { x ^ (x >> 21) }

  function Shl35(x: U64): U64 { x ^ (x << 35) }

  function Shr4(x: U64): U64 { x ^ (x >> 4) }

  function Mix(x: U64): U64 { Shr4(Shl35(Shr21(x))) }

  function Plus(a: U64, b: U64): U64 { a + b }

  function Minus(a: U64, b: U64): U64 { a - b }

  /** One `HashUpdate`. */
  function Updated(already: U64, value: U64): U64 { Plus(Mix(already), value) }

  // ----- undoing it

  function UnShr21(y: U64): U64 { y ^ (y >> 21) ^ (y >> 42) ^ (y >> 63) }

  function UnShr4(y: U64): U64
  {
    var a := y ^ (y >> 4);
    var b := a ^ (a >> 8);
    var c := b ^ (b >> 16);
    c ^ (c >> 32)
  }

  function Unmix(y: U64): U64 { UnShr21(Shl35(UnShr4(y))) }

  function Unupdated(result: U64, value: U64): U64 { Unmix(Minus(result, value)) }

  // Each step is undone, first on the written-out expression and then by name.
  lemma RawShr21(x: U64)
    ensures UnShr21(x ^ (x >> 21)) == x
  {
  }

  lemma RawUnShr21(y: U64)
    ensures Shr21(y ^ (y >> 21) ^ (y >> 42) ^ (y >> 63)) == y
  {
  }

  lemma RawShl35(x: U64)
    ensures Shl35(x ^ (x << 35)) == x
  {
  }

  lemma RawShr4(x: U64)
    ensures UnShr4(x ^ (x >> 4)) == x
  {
  }

  lemma RawUnShr4(y: U64)
    ensures var a := y ^ (y >> 4); var b := a ^ (a >> 8); var c := b ^ (b >> 16); Shr4(c ^ (c >> 32)) == y
  {
  }

  lemma RawPlus(a: U64, b: U64)
    ensures Minus(a + b, b) == a && Minus(a + b, a) == b
  {
  }

  lemma RawMinus(a: U64, b: U64)
    ensures Plus(a - b, b) == a && Plus(b, a - b) == a
  {
  }

  lemma Shr21Is(x: U64)
    ensures Shr21(x) == x ^ (x >> 21)
  {
  }

  lemma Shl35Is(x: U64)
    ensures Shl35(x) == x ^ (x << 35)
  {
  }

  lemma Shr4Is(x: U64)
    ensures Shr4(x) == x ^ (x >> 4)
  {
  }

  lemma UnShr21Is(x: U64)
    ensures UnShr21(x) == x ^ (x >> 21) ^ (x >> 42) ^ (x >> 63)
  {
  }

  lemma UnShr4Is(x: U64)
    ensures UnShr4(x) == var a := x ^ (x >> 4); var b := a ^ (a >> 8); var c := b ^ (b >> 16); c ^ (c >> 32)
  {
  }

  lemma PlusIs(x: U64, y: U64)
    ensures Plus(x, y) == x + y
  {
  }

  lemma MinusIs(x: U64, y: U64)
    ensures Minus(x, y) == x - y
  {
  }

  lemma StepsUndone(x: U64)
    ensures UnShr21(Shr21(x)) == x && Shr21(UnShr21(x)) == x
    ensures Shl35(Shl35(x)) == x
    ensures UnShr4(Shr4(x)) == x && Shr4(UnShr4(x)) == x
  {
    hide *;
    Shr21Is(x);
    Shl35Is(x);
    Shr4Is(x);
    UnShr21Is(x);
    UnShr4Is(x);
    RawShr21(x);
    RawUnShr21(x);
    RawShl35(x);
    RawShr4(x);
    RawUnShr4(x);
  }

  lemma PlusUndone(x: U64, y: U64)
    ensures Minus(Plus(x, y), y) == x && Minus(Plus(x, y), x) == y
    ensures Plus(Minus(x, y), y) == x && Plus(y, Minus(x, y)) == x
  {
    hide *;
    PlusIs(x, y);
    MinusIs(x, y);
    RawPlus(x, y);
    RawMinus(x, y);
  }

  lemma MixBijective(x: U64)
    ensures Unmix(Mix(x)) == x && Mix(Unmix(x)) == x
  {
    hide Shr21, Shl35, Shr4, UnShr21, UnShr4;
    StepsUndone(x);
    StepsUndone(Shr21(x));
    StepsUndone(Shl35(Shr21(x)));
    StepsUndone(UnShr4(x));
    StepsUndone(Shl35(UnShr4(x)));
  }

  /** `HashUpdate` is a bijection of the running state for each value, and of the value
      for each state. */
  lemma UpdateBijective(already: U64, value: U64, result: U64)
    ensures Unupdated(Updated(already, value), value) == already
    ensures Updated(Unupdated(result, value), value) == result
    ensures Updated(already, value) == result <==> value == Minus(result, Mix(already))
  {
    hide Mix, Unmix, Plus, Minus;
    MixBijective(already);
    MixBijective(Minus(result, value));
    PlusUndone(Mix(already), value);
    PlusUndone(result, value);
    PlusUndone(result, Mix(already));
  }

  // ----- whole lists

  function Hashed(already: U64, values: seq<U64>): U64
  {
    if values == [] then already
    else Updated(Hashed(already, values[..|values| - 1]), values[|values| - 1])
  }

  function CountHash(values: seq<U64>): U64 { Hashed(0, values) }

  function Unhashed(result: U64, values: seq<U64>): U64
    decreases |values|
  {
    if values == [] then result
    else Unhashed(Unupdated(result, values[|values| - 1]), values[..|values| - 1])
  }

  lemma {:induction false} UnhashHashed(already: U64, values: seq<U64>)
    ensures Unhashed(Hashed(already, values), values) == already
  {
    hide Updated, Unupdated;
    if values != [] {
      var front, last := values[..|values| - 1], values[|values| - 1];
      UpdateBijective(Hashed(already, front), last, 0);
      UnhashHashed(already, front);
    }
  }

  lemma {:induction false} HashedConcat(already: U64, a: seq<U64>, b: seq<U64>)
    ensures Hashed(already, a + b) == Hashed(Hashed(already, a), b)
  {
    hide Updated;
    if b == [] {
      assert a + b == a;
    } else {
      assert (a + b)[..|a + b| - 1] == a + b[..|b| - 1];
      HashedConcat(already, a, b[..|b| - 1]);
    }
  }

  /** Lists that differ in exactly one position never collide. */
  lemma OneDifferenceNeverCollides(front: seq<U64>, x: U64, y: U64, back: seq<U64>)
    ensures CountHash(front + [x] + back) == CountHash(front + [y] + back) <==> x == y
  {
    hide Updated, Unhashed, Mix, Minus;
    HashedConcat(0, front + [x], back);
    HashedConcat(0, front + [y], back);
    UnhashHashed(Hashed(0, front + [x]), back);
    UnhashHashed(Hashed(0, front + [y]), back);
    HashedLast(front, x);
    HashedLast(front, y);
    hide Hashed;
    UpdateBijective(Hashed(0, front), x, Updated(Hashed(0, front), y));
    UpdateBijective(Hashed(0, front), y, Updated(Hashed(0, front), y));
  }

  lemma HashedLast(front: seq<U64>, x: U64)
    ensures Hashed(0, front + [x]) == Updated(Hashed(0, front), x)
  {
    hide Updated;
    assert (front + [x])[..|front|] == front;
  }

  method HashUpdate(already: U64, value: U64) returns (r: U64)
    ensures r == Updated(already, value)
  {
    hide Shr21, Shl35, Shr4, Plus;
    r := Shr21(already);
    r := Shl35(r);
    r := Shr4(r);
    r := Plus(r, value);
  }

  method CountRange(range: seq<U64>) returns (result: U64)
    ensures result == CountHash(range)
  {
    hide Updated;
    result := 0;
    for i := 0 to |range|
      invariant result == Hashed(0, range[..i])
    {
      assert range[..i + 1][..i] == range[..i];
      result := HashUpdate(result, range[i]);
    }
    assert range[..|range|] == range;
  }

  // ----- the sticker lists

  datatype StickerSet = StickerSet(hash: U64, special: bool, archived: bool, unread: bool)

  type Sets = map<U64, StickerSet>

  const DEFAULT_SET: U64 := 0

  predicate Outdated(sets: Sets, order: seq<U64>) { DEFAULT_SET in sets && DEFAULT_SET in order }

  function SetHash(sets: Sets, id: U64): seq<U64>
  {
    if id in sets && id != DEFAULT_SET && !sets[id].special && !sets[id].archived then [sets[id].hash] else []
  }

  function SetHashes(sets: Sets, order: seq<U64>): seq<U64>
  {
    if order == [] then [] else SetHashes(sets, order[..|order| - 1]) + SetHash(sets, order[|order| - 1])
  }

  /** The hashes of the sets go in one by one, in order: those stored, neither special nor
      archived nor the default set. */
  lemma {:induction false} SetHashesFiltered(sets: Sets, a: seq<U64>, b: seq<U64>)
    ensures SetHashes(sets, a + b) == SetHashes(sets, a) + SetHashes(sets, b)
    ensures |a| == 1 && a[0] in sets && !sets[a[0]].special && !sets[a[0]].archived && a[0] != 0 ==>
      SetHashes(sets, a) == [sets[a[0]].hash]
    ensures |a| == 1 && (a[0] !in sets || sets[a[0]].special || sets[a[0]].archived || a[0] == 0) ==>
      SetHashes(sets, a) == []
  {
    assert |a| == 1 ==> a[..0] == [];
    if b == [] {
      assert a + b == a;
    } else {
      assert (a + b)[..|a + b| - 1] == a + b[..|b| - 1];
      SetHashesFiltered(sets, a, b[..|b| - 1]);
    }
  }

  lemma NoSets(sets: Sets)
    ensures Hashed(0, SetHashes(sets, [])) == 0 && !Outdated(sets, [])
  {
  }

  lemma OneMoreSet(sets: Sets, order: seq<U64>, id: U64)
    ensures Hashed(0, SetHashes(sets, order + [id]))
         == var h := Hashed(0, SetHashes(sets, order));
            if SetHash(sets, id) == [] then h else Updated(h, sets[id].hash)
    ensures Outdated(sets, order + [id]) <==> Outdated(sets, order) || (id in sets && id == DEFAULT_SET)
  {
    hide Updated;
    var hs, h := SetHashes(sets, order), SetHash(sets, id);
    assert (order + [id])[..|order|] == order;
    assert SetHashes(sets, order + [id]) == hs + h;
    if h == [] {
      assert hs + h == hs;
    } else {
      HashedSnoc(hs, sets[id].hash);
    }
  }

  lemma HashedSnoc(values: seq<U64>, x: U64)
    ensures Hashed(0, values + [x]) == Updated(Hashed(0, values), x)
  {
    hide Updated;
    assert (values + [x])[..|values|] == values;
  }

  method CountStickersOrderHash(sets: Sets, order: seq<U64>, checkOutdatedInfo: bool) returns (r: U64)
    ensures r == if checkOutdatedInfo && Outdated(sets, order) then 0 else CountHash(SetHashes(sets, order))
  {
    hide Updated, Hashed, SetHashes, Outdated;
    var result: U64 := 0;
    var foundOutdated := false;
    NoSets(sets);
    assert order[..0] == [];
    var i := 0;
    while i < |order|
      invariant 0 <= i <= |order|
      invariant result == Hashed(0, SetHashes(sets, order[..i]))
      invariant foundOutdated <==> Outdated(sets, order[..i])
    {
      var id := order[i];
      assert order[..i + 1] == order[..i] + [id];
      OneMoreSet(sets, order[..i], id);
      if id in sets {
        if id == DEFAULT_SET {
          foundOutdated := true;
        } else if !sets[id].special && !sets[id].archived {
          result := HashUpdate(result, sets[id].hash);
        }
      }
      i := i + 1;
    }
    assert order[..i] == order;
    r := if !checkOutdatedInfo || !foundOutdated then result else 0;
  }

  predicate Unread(sets: Sets, id: U64) { id in sets && sets[id].unread }

  function Marked(sets: Sets, id: U64): seq<U64> { if Unread(sets, id) then [id, 1] else [id] }

  function Flattened(sets: Sets, order: seq<U64>): seq<U64>
  {
    if order == [] then [] else Flattened(sets, order[..|order| - 1]) + Marked(sets, order[|order| - 1])
  }

  lemma MarkedHashed(h: U64, sets: Sets, id: U64)
    ensures Hashed(h, Marked(sets, id)) == if Unread(sets, id) then Updated(Updated(h, id), 1) else Updated(h, id)
  {
    hide Updated;
    var one: seq<U64> := [id];
    assert one[..0] == [] && [id, 1][..1] == one;
    assert Hashed(h, one) == Updated(h, id);
  }

  method CountFeaturedHash(sets: Sets, order: seq<U64>) returns (result: U64)
    ensures result == CountHash(Flattened(sets, order))
  {
    hide Updated;
    result := 0;
    var i := 0;
    while i < |order|
      invariant 0 <= i <= |order|
      invariant result == Hashed(0, Flattened(sets, order[..i]))
    {
      var setId := order[i];
      assert order[..i + 1][..i] == order[..i];
      HashedConcat(0, Flattened(sets, order[..i]), Marked(sets, setId));
      MarkedHashed(result, sets, setId);
      result := HashUpdate(result, setId);
      if setId in sets && sets[setId].unread {
        result := HashUpdate(result, 1);
      }
      i := i + 1;
    }
    assert order[..i] == order;
  }

  /** Among orders without the identifier 1 the flattened featured list determines the order
      and its unread marks. */
  lemma {:induction false} FlattenedInjective(s: Sets, a: seq<U64>, t: Sets, b: seq<U64>)
    requires 1 !in a && 1 !in b && Flattened(s, a) == Flattened(t, b)
    ensures a == b && forall id :: id in a ==> Unread(s, id) == Unread(t, id)
  {
    hide Flattened, Unread;
    FlattenedLast(s, a);
    FlattenedLast(t, b);
    if a != [] && b != [] {
      FlattenedInjective(s, a[..|a| - 1], t, b[..|b| - 1]);
      assert a == a[..|a| - 1] + [a[|a| - 1]] && b == b[..|b| - 1] + [b[|b| - 1]];
    }
  }

  /** How to read the last set off the flattened list. */
  lemma FlattenedLast(s: Sets, a: seq<U64>)
    requires 1 !in a
    ensures a == [] <==> Flattened(s, a) == []
    ensures a != [] ==>
      var f, x := Flattened(s, a), a[|a| - 1];
      var n := if Unread(s, x) then |f| - 2 else |f| - 1;
      && n >= 0 && f[n] == x && f[..n] == Flattened(s, a[..|a| - 1])
      && (f[|f| - 1] == 1 <==> Unread(s, x))
  {
    if a != [] {
      var x := a[|a| - 1];
      assert x in a;
      assert Flattened(s, a) == Flattened(s, a[..|a| - 1]) + Marked(s, x);
    }
  }

  /** With it, it does not: one unread set, say 5, gives the list of the two read sets 5 and 1. */
  lemma FeaturedCollision(s: Sets, t: Sets, x: U64)
    requires Unread(s, x) && !Unread(t, x) && !Unread(t, 1)
    ensures Flattened(s, [x]) == Flattened(t, [x, 1])
  {
    hide Flattened, Unread;
    FlattenedSnoc(s, [], x);
    FlattenedSnoc(t, [], x);
    FlattenedSnoc(t, [x], 1);
    assert [x] + [1] == [x, 1];
  }

  // ----- exactly when the flattened list leaves open what it came from

  /** Another order, or other unread marks on the same order, give the same list. */
  ghost predicate Ambiguous(s: Sets, a: seq<U64>)
  {
    exists t, b :: Flattened(t, b) == Flattened(s, a) && (b != a || MarksDiffer(s, t, a))
  }

  ghost predicate MarksDiffer(s: Sets, t: Sets, a: seq<U64>)
  {
    exists id :: id in a && Unread(s, id) != Unread(t, id)
  }

  ghost predicate SomeUnread(s: Sets, a: seq<U64>) { exists id :: id in a && Unread(s, id) }

  /** Reading the list from the front, each x is followed by a 1 that can be its mark. */
  predicate Paired(x: U64, q: seq<U64>)
  {
    q == [] || (if q[0] == x then |q| > 1 && q[1] == 1 && Paired(x, q[2..]) else Paired(x, q[1..]))
  }

  /** The list without those marks. */
  function Unpaired(x: U64, q: seq<U64>): seq<U64>
    requires Paired(x, q)
  {
    if q == [] then [] else [q[0]] + if q[0] == x then Unpaired(x, q[2..]) else Unpaired(x, q[1..])
  }

  function OnlyUnread(x: U64): Sets { AllUnread({x}) }

  function AllUnread(ids: set<U64>): Sets { map id | id in ids :: StickerSet(0, false, false, true) }

  /** A featured list is ambiguous exactly when it marks some set unread, or some set can be
      read as marked by ones that are sets themselves. */
  lemma AmbiguousExactlyWhen(s: Sets, a: seq<U64>)
    ensures Ambiguous(s, a) <==> SomeUnread(s, a) || exists x :: x in a && Paired(x, a)
  {
    hide Flattened, Unread, Paired, Unpaired;
    if SomeUnread(s, a) {
      UnreadLonger(s, a);
      NothingMarked(Flattened(s, a));
    } else {
      AllRead(s, a);
      forall x | x in a && Paired(x, a)
        ensures Ambiguous(s, a)
      {
        UnpairedFlattens(x, a);
      }
      forall t, b | Flattened(t, b) == a && (b != a || MarksDiffer(s, t, a))
        ensures exists x :: x in a && Paired(x, a)
      {
        if !SomeUnread(t, b) {
          AllRead(t, b);
        }
        var x := OneMark(t, b);
        PairedFlattened(t, b, x);
      }
    }
  }

  /** Without an identifier 1 only the first half is left. */
  lemma AmbiguousWithoutOne(s: Sets, a: seq<U64>)
    requires 1 !in a
    ensures Ambiguous(s, a) <==> SomeUnread(s, a)
  {
    AmbiguousExactlyWhen(s, a);
    forall x | x in a
      ensures !Paired(x, a)
    {
      NotPaired(x, a);
    }
  }

  lemma {:induction false} NotPaired(x: U64, q: seq<U64>)
    requires x in q && 1 !in q
    ensures !Paired(x, q)
  {
    if q[0] != x {
      NotPaired(x, q[1..]);
    }
  }

  /** An unread set, other than the set 1 if there is one. */
  lemma OneMark(t: Sets, b: seq<U64>) returns (x: U64)
    requires SomeUnread(t, b)
    ensures x in b && Unread(t, x) && (x == 1 ==> forall id :: id in b && Unread(t, id) ==> id == 1)
  {
    if id :| id in b && Unread(t, id) && id != 1 {
      x := id;
    } else {
      x :| x in b && Unread(t, x);
    }
  }

  lemma Grouped(p: seq<U64>, q: seq<U64>, r: seq<U64>)
    ensures (p + q) + r == p + (q + r)
  {
  }

  lemma {:induction false} FlattenedCons(s: Sets, x: U64, a: seq<U64>)
    ensures Flattened(s, [x] + a) == Marked(s, x) + Flattened(s, a)
  {
    hide Marked, Flattened;
    if a == [] {
      FlattenedSnoc(s, [], x);
      assert [] + [x] == [x] + a;
      assert Marked(s, x) + [] == Marked(s, x);
    } else {
      var n := |a| - 1;
      var init, last := a[..n], a[n];
      FlattenedCons(s, x, init);
      FlattenedSnoc(s, init, last);
      FlattenedSnoc(s, [x] + init, last);
      assert init + [last] == a;
      Grouped([x], init, [last]);
      Grouped(Marked(s, x), Flattened(s, init), Marked(s, last));
    }
  }

  lemma {:induction false} AllRead(t: Sets, b: seq<U64>)
    ensures !SomeUnread(t, b) ==> Flattened(t, b) == b
  {
    hide Unread, Flattened;
    if b == [] {
      NothingFlattened(t);
    } else if !SomeUnread(t, b) {
      var init, last := b[..|b| - 1], b[|b| - 1];
      assert init + [last] == b && last in b;
      assert !SomeUnread(t, init);
      AllRead(t, init);
      FlattenedSnoc(t, init, last);
    }
  }

  lemma NothingMarked(b: seq<U64>)
    ensures Flattened(map[], b) == b
  {
    AllRead(map[], b);
  }

  lemma {:induction false} UnreadLonger(s: Sets, a: seq<U64>)
    ensures |Flattened(s, a)| >= |a|
    ensures SomeUnread(s, a) ==> |Flattened(s, a)| > |a|
  {
    if a != [] {
      var n := |a| - 1;
      UnreadLonger(s, a[..n]);
      assert forall id :: id in a ==> id in a[..n] || id == a[n];
    }
  }

  lemma OnlyMarked(x: U64, y: U64)
    ensures Marked(OnlyUnread(x), y) == if y == x then [y, 1] else [y]
  {
    assert Unread(OnlyUnread(x), y) <==> y == x;
  }

  lemma NothingFlattened(s: Sets)
    ensures Flattened(s, []) == []
  {
  }

  lemma {:induction false} UnpairedFlattens(x: U64, q: seq<U64>)
    requires Paired(x, q)
    ensures Flattened(OnlyUnread(x), Unpaired(x, q)) == q
    ensures |Unpaired(x, q)| <= |q| && (x in q ==> |Unpaired(x, q)| < |q|)
  {
    hide Flattened, OnlyUnread, Marked;
    if q == [] {
      NothingFlattened(OnlyUnread(x));
    } else {
      var rest := if q[0] == x then q[2..] else q[1..];
      UnpairedFlattens(x, rest);
      FlattenedCons(OnlyUnread(x), q[0], Unpaired(x, rest));
      OnlyMarked(x, q[0]);
      assert q == Marked(OnlyUnread(x), q[0]) + rest;
      assert Unpaired(x, q) == [q[0]] + Unpaired(x, rest);
    }
  }

  lemma {:induction false} PairedFlattened(t: Sets, b: seq<U64>, x: U64)
    requires Unread(t, x) && (x == 1 ==> forall id :: id in b && Unread(t, id) ==> id == 1)
    ensures Paired(x, Flattened(t, b))
    ensures x in b ==> x in Flattened(t, b)
  {
    if b != [] {
      var rest := b[1..];
      assert b == [b[0]] + rest && forall id :: id in rest ==> id in b;
      FlattenedCons(t, b[0], rest);
      PairedFlattened(t, rest, x);
      MarkedPaired(t, b[0], x, Flattened(t, rest));
    }
  }

  lemma MarkedPaired(t: Sets, y: U64, x: U64, q: seq<U64>)
    requires Unread(t, x) && (x == 1 && Unread(t, y) ==> y == 1) && Paired(x, q)
    ensures Paired(x, Marked(t, y) + q)
  {
    var m := Marked(t, y) + q;
    if Unread(t, y) {
      assert m[1..] == [1] + q && m[2..] == q && m[1..][1..] == q;
    } else {
      assert m[1..] == q;
    }
  }

  lemma FlattenedSnoc(s: Sets, a: seq<U64>, x: U64)
    ensures Flattened(s, []) == []
    ensures Flattened(s, a + [x]) == Flattened(s, a) + Marked(s, x)
    ensures a == [] ==> a + [x] == [x] && Flattened(s, a + [x]) == Marked(s, x)
  {
    assert (a + [x])[..|a|] == a;
  }
}
