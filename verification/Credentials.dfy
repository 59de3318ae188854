/** Temporary passwords: unbiased sampling and an unbiased shuffle. */
module Credentials {
  import opened Common
  import opened Sampling
  import opened Shuffles

  const UPPER: string := "ABCDEFGHJKLMNPQRSTUVWXYZ"
  const LOWER: string := "abcdefghijkmnopqrstuvwxyz"
  const DIGITS: string := "23456789"
  const EASY: string := UPPER + LOWER + DIGITS

  const TEMPORARY_PASSWORD_LENGTH: nat := 8

  // --- secure_index --------------------------------------------------------------------

  /** The first accepted draw, modulo the bound, and where the next draw starts. */
  function Draw(draws: seq<nat>, from: nat, bound: nat): (r: Option<(nat, nat)>)
    requires from <= |draws| && 0 < bound <= U32_MAX
    ensures r.Some? ==> r.value.0 < bound && from < r.value.1 <= |draws|
    ensures r.None? <==> forall k :: from <= k < |draws| ==> draws[k] >= RejectionLimit(bound)
    decreases |draws| - from
  {
    if from == |draws| then None
    else if draws[from] < RejectionLimit(bound) then Some((draws[from] % bound, from + 1))
    else Draw(draws, from + 1, bound)
  }

  ghost predicate Bounds(bounds: seq<nat>)
  {
    forall k :: 0 <= k < |bounds| ==> 0 < bounds[k] <= U32_MAX
  }

  /** One draw below each bound, in this order. */
  function DrawAll(draws: seq<nat>, from: nat, bounds: seq<nat>): (r: Option<(seq<nat>, nat)>)
    requires from <= |draws| && Bounds(bounds)
    ensures r.Some? ==> |r.value.0| == |bounds| && from <= r.value.1 <= |draws|
    ensures r.Some? ==> forall k :: 0 <= k < |bounds| ==> r.value.0[k] < bounds[k]
  {
    if bounds == [] then Some(([], from))
    else
      match DrawAll(draws, from, bounds[..|bounds|-1])
      case None => None
      case Some((values, next)) =>
        match Draw(draws, next, bounds[|bounds|-1])
        case None => None
        case Some((value, after)) => Some((values + [value], after))
  }

  lemma DrawOneMore(draws: seq<nat>, from: nat, bounds: seq<nat>, bound: nat)
    requires from <= |draws| && Bounds(bounds) && 0 < bound <= U32_MAX
    ensures Bounds(bounds + [bound])
    ensures DrawAll(draws, from, bounds + [bound]) ==
            match DrawAll(draws, from, bounds) {
              case None => None
              case Some((values, next)) =>
                (match Draw(draws, next, bound)
                 case None => None
                 case Some((value, after)) => Some((values + [value], after)))
            }
  {
    assert (bounds + [bound])[..|bounds|] == bounds;
  }

  lemma {:induction false} DrawAllStops(draws: seq<nat>, from: nat, bounds: seq<nat>, n: nat)
    requires from <= |draws| && Bounds(bounds) && n <= |bounds| && DrawAll(draws, from, bounds[..n]).None?
    ensures DrawAll(draws, from, bounds).None?
    decreases |bounds| - n
  {
    if n == |bounds| {
      assert bounds[..n] == bounds;
    } else {
      DrawOneMore(draws, from, bounds[..n], bounds[n]);
      assert bounds[..n+1] == bounds[..n] + [bounds[n]];
      DrawAllStops(draws, from, bounds, n + 1);
    }
  }

  /** The generator's outputs are an input; `None` means that none of them was accepted yet. */
  method SecureIndex(draws: seq<nat>, from: nat, bound: nat) returns (index: Option<nat>, next: nat)
    requires from <= |draws| && 0 < bound <= U32_MAX
    ensures from <= next <= |draws|
    ensures Draw(draws, from, bound) == if index.Some? then Some((index.value, next)) else None
    ensures index.Some? ==> from < next && draws[next-1] < RejectionLimit(bound)
                            && index.value == draws[next-1] % bound < bound
    ensures forall k :: from <= k < (if index.Some? then next - 1 else |draws|) ==> draws[k] >= RejectionLimit(bound)
  {
    next := from;
    while next < |draws|
      invariant from <= next <= |draws|
      invariant forall k :: from <= k < next ==> draws[k] >= RejectionLimit(bound)
      invariant Draw(draws, from, bound) == Draw(draws, next, bound)
    {
      var candidate := draws[next];
      next := next + 1;
      if candidate < RejectionLimit(bound) {
        return Some(candidate % bound), next;
      }
    }
    index := None;
  }

  // --- the shuffle ---------------------------------------------------------------------------

  /** The bounds the swaps are drawn below: n, n - 1, ..., down to 2. */
  function SwapBounds(n: nat, count: nat): (bounds: seq<nat>)
    requires count < n || count == 0
    ensures |bounds| == count && forall k :: 0 <= k < count ==> bounds[k] == n - k
  {
    seq(count, k requires 0 <= k < count => n - k)
  }

  /** The swaps so far are those of the draws so far. */
  ghost predicate Shuffling<T>(before: seq<T>, now: seq<T>, draws: seq<nat>, from: nat, next: nat, picks: seq<nat>,
                               all: seq<nat>)
    requires from <= |draws| && Bounds(all)
  {
    && |before| < U32_MAX && all == SwapBounds(|before|, if before == [] then 0 else |before| - 1)
    && |picks| <= |all| && Legal(|before|, picks) && now == Swaps(before, |before|, picks)
    && DrawAll(draws, from, all[..|picks|]) == Some((picks, next))
  }

  lemma DrawnFurther(draws: seq<nat>, from: nat, next: nat, picks: seq<nat>, all: seq<nat>, pick: nat, after: nat)
    requires from <= |draws| && Bounds(all) && |picks| < |all|
    requires DrawAll(draws, from, all[..|picks|]) == Some((picks, next))
    requires Draw(draws, next, all[|picks|]) == Some((pick, after))
    ensures DrawAll(draws, from, all[..|picks|+1]) == Some((picks + [pick], after))
  {
    DrawOneMore(draws, from, all[..|picks|], all[|picks|]);
    assert all[..|picks|+1] == all[..|picks|] + [all[|picks|]];
  }

  lemma ShuffledFurther<T>(before: seq<T>, now: seq<T>, draws: seq<nat>, from: nat, next: nat, picks: seq<nat>,
                           all: seq<nat>, pick: nat, after: nat)
    requires from <= |draws| && Bounds(all) && Shuffling(before, now, draws, from, next, picks, all)
    requires |picks| < |all| && Draw(draws, next, |before| - |picks|) == Some((pick, after))
    ensures |now| == |before| && pick < |before| - |picks|
    ensures Shuffling(before, Swap(now, |before| - 1 - |picks|, pick), draws, from, after, picks + [pick], all)
  {
    assert all[|picks|] == |before| - |picks|;
    DrawnFurther(draws, from, next, picks, all, pick, after);
    LegalPush(|before|, picks, pick);
    OneMoreSwap(before, |before|, picks, pick);
  }

  lemma ShuffleStops<T>(before: seq<T>, now: seq<T>, draws: seq<nat>, from: nat, next: nat, picks: seq<nat>,
                        all: seq<nat>)
    requires from <= |draws| && Bounds(all) && Shuffling(before, now, draws, from, next, picks, all)
    requires |picks| < |all| && Draw(draws, next, |before| - |picks|).None?
    ensures DrawAll(draws, from, all).None?
  {
    DrawOneMore(draws, from, all[..|picks|], |before| - |picks|);
    assert all[..|picks|+1] == all[..|picks|] + [|before| - |picks|];
    DrawAllStops(draws, from, all, |picks| + 1);
  }

  /** The loop of temporary_password, on an array of any length. */
  method Shuffle<T>(a: array<T>, draws: seq<nat>, from: nat) returns (ok: bool, next: nat, ghost picks: seq<nat>)
    requires from <= |draws| && a.Length < U32_MAX
    modifies a
    ensures from <= next <= |draws|
    ensures ok ==> FullDraw(a.Length, picks) && a[..] == Swaps(old(a[..]), a.Length, picks)
    ensures DrawAll(draws, from, SwapBounds(a.Length, if a.Length == 0 then 0 else a.Length - 1))
            == if ok then Some((picks, next)) else None
  {
    next, picks := from, [];
    ghost var all, before := SwapBounds(a.Length, if a.Length == 0 then 0 else a.Length - 1), a[..];
    var index := a.Length;
    assert all[..0] == [];
    while index > 1
      invariant from <= next <= |draws| && Shuffling(before, a[..], draws, from, next, picks, all)
      invariant if a.Length == 0 then index == 0 else index == a.Length - |picks| >= 1
    {
      ghost var now := a[..];
      var swap, after := SecureIndex(draws, next, index);
      if swap.None? {
        ShuffleStops(before, now, draws, from, next, picks, all);
        return false, after, picks;
      }
      ShuffledFurther(before, now, draws, from, next, picks, all, swap.value, after);
      index := index - 1;
      a[index], a[swap.value] := a[swap.value], a[index];
      assert a[..] == Swap(now, index, swap.value);
      next, picks := after, picks + [swap.value];
    }
    assert all[..|picks|] == all;
    ok := true;
  }

  // --- temporary_password ---------------------------------------------------------------------

  ghost predicate HasFrom(s: string, alphabet: string)
  {
    exists c :: c in s && c in alphabet
  }

  method DrawFrom(alphabet: string, draws: seq<nat>, from: nat) returns (c: Option<char>, next: nat)
    requires from <= |draws| && 0 < |alphabet| <= U32_MAX
    ensures from <= next <= |draws|
    ensures match Draw(draws, from, |alphabet|) {
      case None => c == None
      case Some((index, after)) => c == Some(alphabet[index]) && next == after
    }
  {
    var pick;
    pick, next := SecureIndex(draws, from, |alphabet|);
    c := if pick.Some? then Some(alphabet[pick.value]) else None;
  }

  lemma EasyCharacters(c: char)
    ensures c in EASY <==> c in UPPER || c in LOWER || c in DIGITS
  {
    assert c in UPPER + (LOWER + DIGITS) <==> c in UPPER || c in LOWER + DIGITS;
  }

  /** Four non-empty alphabets, the last containing the others. */
  ghost predicate Alphabets(upper: string, lower: string, digits: string, easy: string)
  {
    && 0 < |upper| <= U32_MAX && 0 < |lower| <= U32_MAX && 0 < |digits| <= U32_MAX && 0 < |easy| <= U32_MAX
    && forall c :: c in upper || c in lower || c in digits ==> c in easy
  }

  /** The alphabet of each position before the shuffle. */
  function KindOf(k: nat, upper: string, lower: string, digits: string, easy: string): string
  {
    if k == 0 then upper else if k == 1 then lower else if k == 2 then digits else easy
  }

  function KindBounds(n: nat, upper: string, lower: string, digits: string, easy: string): (bounds: seq<nat>)
    ensures |bounds| == n && forall k :: 0 <= k < n ==> bounds[k] == |KindOf(k, upper, lower, digits, easy)|
  {
    seq(n, k requires 0 <= k < n => |KindOf(k, upper, lower, digits, easy)|)
  }

  /** The characters that these indices name. */
  function Spelled(values: seq<nat>, upper: string, lower: string, digits: string, easy: string): (s: string)
    requires forall k :: 0 <= k < |values| ==> values[k] < |KindOf(k, upper, lower, digits, easy)|
    ensures |s| == |values|
    ensures forall k :: 0 <= k < |values| ==> s[k] == KindOf(k, upper, lower, digits, easy)[values[k]]
  {
    seq(|values|, k requires 0 <= k < |values| => KindOf(k, upper, lower, digits, easy)[values[k]])
  }

  /** The password that the generator's outputs determine: the drawn characters under the drawn swaps. */
  function PasswordOf(upper: string, lower: string, digits: string, easy: string, draws: seq<nat>): Option<string>
    requires Alphabets(upper, lower, digits, easy)
  {
    match DrawAll(draws, 0, KindBounds(TEMPORARY_PASSWORD_LENGTH, upper, lower, digits, easy))
    case None => None
    case Some((values, next)) =>
      match DrawAll(draws, next, SwapBounds(TEMPORARY_PASSWORD_LENGTH, TEMPORARY_PASSWORD_LENGTH - 1))
      case None => None
      case Some((picks, _)) =>
        Some(Swaps(Spelled(values, upper, lower, digits, easy), TEMPORARY_PASSWORD_LENGTH, picks))
  }

  /** Draw the next character and put it at `i`. */
  method PlaceNext(bytes: array<char>, i: nat, alphabet: string, draws: seq<nat>, from: nat, ghost all: seq<nat>,
                   ghost drawn: seq<nat>)
    returns (ok: bool, next: nat, ghost values: seq<nat>)
    requires i < bytes.Length == |all| && Bounds(all) && all[i] == |alphabet| && from <= |draws|
    requires DrawAll(draws, 0, all[..i]) == Some((drawn, from))
    modifies bytes
    ensures next <= |draws| && forall k :: 0 <= k < bytes.Length && k != i ==> bytes[k] == old(bytes[k])
    ensures ok ==> |values| == i + 1 && values[..i] == drawn && DrawAll(draws, 0, all[..i+1]) == Some((values, next))
    ensures ok ==> values[i] < |alphabet| && bytes[i] == alphabet[values[i]]
    ensures !ok ==> DrawAll(draws, 0, all).None?
  {
    DrawOneMore(draws, 0, all[..i], |alphabet|);
    assert all[..i+1] == all[..i] + [|alphabet|];
    ghost var draw := Draw(draws, from, |alphabet|);
    var c;
    c, next := DrawFrom(alphabet, draws, from);
    ok, values := c.Some?, drawn;
    if ok {
      bytes[i] := c.value;
      values := drawn + [draw.value.0];
    } else {
      DrawAllStops(draws, 0, all, i + 1);
    }
  }

  /** The first characters are the ones that these indices name. */
  ghost predicate Filled(bytes: seq<char>, values: seq<nat>, upper: string, lower: string, digits: string, easy: string)
  {
    |values| <= |bytes| && forall k :: 0 <= k < |values| ==>
      values[k] < |KindOf(k, upper, lower, digits, easy)|
      && bytes[k] == KindOf(k, upper, lower, digits, easy)[values[k]]
  }

  lemma FilledFurther(before: seq<char>, after: seq<char>, drawn: seq<nat>, values: seq<nat>, upper: string,
                      lower: string, digits: string, easy: string)
    requires Filled(before, drawn, upper, lower, digits, easy)
    requires |drawn| < |before| == |after| && |values| == |drawn| + 1 && values[..|drawn|] == drawn
    requires forall k :: 0 <= k < |drawn| ==> after[k] == before[k]
    requires values[|drawn|] < |KindOf(|drawn|, upper, lower, digits, easy)|
    requires after[|drawn|] == KindOf(|drawn|, upper, lower, digits, easy)[values[|drawn|]]
    ensures Filled(after, values, upper, lower, digits, easy)
  {
    forall k | 0 <= k < |values|
      ensures values[k] < |KindOf(k, upper, lower, digits, easy)|
      ensures after[k] == KindOf(k, upper, lower, digits, easy)[values[k]]
    {
      assert k < |drawn| ==> values[k] == values[..|drawn|][k];
    }
  }

  /** Draw the next character from its own alphabet. */
  method FillNext(bytes: array<char>, alphabet: string, upper: string, lower: string, digits: string, easy: string,
                  draws: seq<nat>, i: nat, from: nat, ghost all: seq<nat>, ghost drawn: seq<nat>)
    returns (ok: bool, next: nat, ghost values: seq<nat>)
    requires i < bytes.Length == |all| && Bounds(all) && all[i] == |alphabet| && from <= |draws|
    requires alphabet == KindOf(i, upper, lower, digits, easy) && |drawn| == i
    requires DrawAll(draws, 0, all[..i]) == Some((drawn, from))
    requires Filled(bytes[..], drawn, upper, lower, digits, easy)
    modifies bytes
    ensures next <= |draws|
    ensures ok ==> |values| == i + 1 && DrawAll(draws, 0, all[..i+1]) == Some((values, next))
                   && Filled(bytes[..], values, upper, lower, digits, easy)
    ensures !ok ==> DrawAll(draws, 0, all).None?
  {
    ghost var before := bytes[..];
    ok, next, values := PlaceNext(bytes, i, alphabet, draws, from, all, drawn);
    if ok { FilledFurther(before, bytes[..], drawn, values, upper, lower, digits, easy); }
  }

  /** One character of each kind. */
  method FillKinds(bytes: array<char>, upper: string, lower: string, digits: string, easy: string, draws: seq<nat>,
                   ghost all: seq<nat>)
    returns (ok: bool, next: nat, ghost values: seq<nat>)
    requires bytes.Length == TEMPORARY_PASSWORD_LENGTH && Alphabets(upper, lower, digits, easy)
    requires all == KindBounds(TEMPORARY_PASSWORD_LENGTH, upper, lower, digits, easy)
    modifies bytes
    ensures next <= |draws|
    ensures ok ==> |values| == 3 && DrawAll(draws, 0, all[..3]) == Some((values, next))
                   && Filled(bytes[..], values, upper, lower, digits, easy)
    ensures !ok ==> DrawAll(draws, 0, all).None?
  {
    assert all[..0] == [];
    ok, next, values := FillNext(bytes, upper, upper, lower, digits, easy, draws, 0, 0, all, []);
    if !ok { return; }
    ok, next, values := FillNext(bytes, lower, upper, lower, digits, easy, draws, 1, next, all, values);
    if !ok { return; }
    ok, next, values := FillNext(bytes, digits, upper, lower, digits, easy, draws, 2, next, all, values);
  }

  /** Easy characters from the fourth position on. */
  method FillEasy(bytes: array<char>, upper: string, lower: string, digits: string, easy: string, draws: seq<nat>,
                  from: nat, ghost all: seq<nat>, ghost drawn: seq<nat>)
    returns (ok: bool, next: nat, ghost values: seq<nat>)
    requires 3 <= bytes.Length == |all| && Bounds(all) && from <= |draws| && |drawn| == 3
    requires forall k :: 3 <= k < |all| ==> all[k] == |easy|
    requires DrawAll(draws, 0, all[..3]) == Some((drawn, from))
    requires Filled(bytes[..], drawn, upper, lower, digits, easy)
    modifies bytes
    ensures next <= |draws|
    ensures ok ==> |values| == bytes.Length && DrawAll(draws, 0, all) == Some((values, next))
                   && Filled(bytes[..], values, upper, lower, digits, easy)
    ensures !ok ==> DrawAll(draws, 0, all).None?
  {
    ok, next, values := true, from, drawn;
    for i := 3 to bytes.Length
      invariant |values| == i && next <= |draws| && DrawAll(draws, 0, all[..i]) == Some((values, next))
      invariant Filled(bytes[..], values, upper, lower, digits, easy)
    {
      ok, next, values := FillNext(bytes, easy, upper, lower, digits, easy, draws, i, next, all, values);
      if !ok { return; }
    }
    assert all[..bytes.Length] == all;
    ok := true;
  }

  /** One character of each kind, then easy ones. */
  method Fill(bytes: array<char>, upper: string, lower: string, digits: string, easy: string, draws: seq<nat>)
    returns (ok: bool, next: nat, ghost values: seq<nat>)
    requires bytes.Length == TEMPORARY_PASSWORD_LENGTH && Alphabets(upper, lower, digits, easy)
    modifies bytes
    ensures next <= |draws|
    ensures DrawAll(draws, 0, KindBounds(TEMPORARY_PASSWORD_LENGTH, upper, lower, digits, easy))
            == if ok then Some((values, next)) else None
    ensures ok ==> Filled(bytes[..], values, upper, lower, digits, easy) && |values| == bytes.Length
  {
    ghost var all := KindBounds(TEMPORARY_PASSWORD_LENGTH, upper, lower, digits, easy);
    ok, next, values := FillKinds(bytes, upper, lower, digits, easy, draws, all);
    if !ok { return; }
    ok, next, values := FillEasy(bytes, upper, lower, digits, easy, draws, next, all, values);
  }

  method Assemble(upper: string, lower: string, digits: string, easy: string, draws: seq<nat>)
    returns (password: Option<string>)
    requires Alphabets(upper, lower, digits, easy)
    ensures password == PasswordOf(upper, lower, digits, easy, draws)
  {
    var bytes := new char[TEMPORARY_PASSWORD_LENGTH](_ => '0');
    ghost var values, picks;
    var ok, next;
    ok, next, values := Fill(bytes, upper, lower, digits, easy, draws);
    if !ok { return None; }
    assert bytes[..] == Spelled(values, upper, lower, digits, easy);
    ok, next, picks := Shuffle(bytes, draws, next);
    if !ok { return None; }
    password := Some(bytes[..]);
  }

  /** A finished password has eight easy characters, one of each kind among them, in any order. */
  lemma PasswordShape(upper: string, lower: string, digits: string, easy: string, draws: seq<nat>)
    requires Alphabets(upper, lower, digits, easy) && PasswordOf(upper, lower, digits, easy, draws).Some?
    ensures var password := PasswordOf(upper, lower, digits, easy, draws).value;
            && |password| == TEMPORARY_PASSWORD_LENGTH && (forall c :: c in password ==> c in easy)
            && HasFrom(password, upper) && HasFrom(password, lower) && HasFrom(password, digits)
  {
    var drawn := DrawAll(draws, 0, KindBounds(TEMPORARY_PASSWORD_LENGTH, upper, lower, digits, easy)).value;
    var spelled := Spelled(drawn.0, upper, lower, digits, easy);
    var picks := DrawAll(draws, drawn.1, SwapBounds(TEMPORARY_PASSWORD_LENGTH, TEMPORARY_PASSWORD_LENGTH - 1)).value.0;
    assert spelled[0] in upper && spelled[1] in lower && spelled[2] in digits;
    forall k | 0 <= k < |spelled| ensures spelled[k] in easy {
      assert spelled[k] in KindOf(k, upper, lower, digits, easy);
    }
    SwapsPermute(spelled, TEMPORARY_PASSWORD_LENGTH, picks);
    SwapsLength(spelled, TEMPORARY_PASSWORD_LENGTH, picks);
    SameCharacters(spelled, Swaps(spelled, TEMPORARY_PASSWORD_LENGTH, picks));
    assert spelled[0] in spelled && spelled[1] in spelled && spelled[2] in spelled;
  }

  /**
   * Whatever the generator yields, the password is the drawn characters under the drawn swaps; a finished one has eight
   * easy characters, one of each kind among them.
   */
  method TemporaryPassword(draws: seq<nat>) returns (password: Option<string>)
    ensures Alphabets(UPPER, LOWER, DIGITS, EASY) && password == PasswordOf(UPPER, LOWER, DIGITS, EASY, draws)
    ensures password.Some? ==>
              |password.value| == TEMPORARY_PASSWORD_LENGTH
              && (forall c :: c in password.value ==> c in EASY)
              && HasFrom(password.value, UPPER) && HasFrom(password.value, LOWER) && HasFrom(password.value, DIGITS)
  {
    forall c ensures c in UPPER || c in LOWER || c in DIGITS ==> c in EASY {
      EasyCharacters(c);
    }
    password := Assemble(UPPER, LOWER, DIGITS, EASY, draws);
    if password.Some? { PasswordShape(UPPER, LOWER, DIGITS, EASY, draws); }
  }

  lemma SameCharacters(s: string, t: string)
    requires multiset(s) == multiset(t)
    ensures forall c :: c in s <==> c in t
  {
    forall c ensures c in s <==> c in t {
      assert c in s <==> c in multiset(s);
      assert c in t <==> c in multiset(t);
    }
  }

  // --- every password can come out -----------------------------------------------------------

  /** A value below its bound is drawn as it is. */
  lemma SmallDrawIsKept(draws: seq<nat>, from: nat, bound: nat)
    requires from < |draws| && draws[from] < bound <= U32_MAX
    ensures Draw(draws, from, bound) == Some((draws[from], from + 1))
  {
    LimitIsHigh(bound);
    SmallIsItself(draws[from], bound);
    assert draws[from] < RejectionLimit(bound);
  }

  lemma {:induction false} SmallDrawsAreKept(draws: seq<nat>, from: nat, bounds: seq<nat>)
    requires Bounds(bounds) && from + |bounds| <= |draws|
    requires forall k :: 0 <= k < |bounds| ==> draws[from + k] < bounds[k]
    ensures DrawAll(draws, from, bounds) == Some((draws[from..from + |bounds|], from + |bounds|))
  {
    if bounds != [] {
      var most, last := bounds[..|bounds|-1], |bounds| - 1;
      SmallDrawsAreKept(draws, from, most);
      SmallDrawIsKept(draws, from + last, bounds[last]);
      assert draws[from..from + |bounds|] == draws[from..from + last] + [draws[from + last]];
    }
  }

  /**
   * For any eight characters, one from each alphabet in turn, and any full draw of swaps there are generator outputs
   * that give exactly those characters under those swaps; so every arrangement of them is possible.
   */
  lemma EveryArrangementOccurs(upper: string, lower: string, digits: string, easy: string, values: seq<nat>,
                               picks: seq<nat>)
    requires Alphabets(upper, lower, digits, easy) && |values| == TEMPORARY_PASSWORD_LENGTH
    requires forall k :: 0 <= k < |values| ==> values[k] < |KindOf(k, upper, lower, digits, easy)|
    requires FullDraw(TEMPORARY_PASSWORD_LENGTH, picks)
    ensures PasswordOf(upper, lower, digits, easy, values + picks)
            == Some(Swaps(Spelled(values, upper, lower, digits, easy), TEMPORARY_PASSWORD_LENGTH, picks))
  {
    var draws := values + picks;
    SmallDrawsAreKept(draws, 0, KindBounds(TEMPORARY_PASSWORD_LENGTH, upper, lower, digits, easy));
    SmallDrawsAreKept(draws, TEMPORARY_PASSWORD_LENGTH,
                      SwapBounds(TEMPORARY_PASSWORD_LENGTH, TEMPORARY_PASSWORD_LENGTH - 1));
    assert draws[0..TEMPORARY_PASSWORD_LENGTH] == values;
    assert draws[TEMPORARY_PASSWORD_LENGTH..TEMPORARY_PASSWORD_LENGTH + |picks|] == picks;
  }

  /** Any rearrangement of eight different characters, one from each alphabet in turn, is some password. */
  lemma AnyOrderIsPossible(upper: string, lower: string, digits: string, easy: string, values: seq<nat>, t: string)
    requires Alphabets(upper, lower, digits, easy) && |values| == TEMPORARY_PASSWORD_LENGTH
    requires forall k :: 0 <= k < |values| ==> values[k] < |KindOf(k, upper, lower, digits, easy)|
    requires Distinct(Spelled(values, upper, lower, digits, easy))
    requires multiset(t) == multiset(Spelled(values, upper, lower, digits, easy))
    ensures exists draws :: PasswordOf(upper, lower, digits, easy, draws) == Some(t)
  {
    var s := Spelled(values, upper, lower, digits, easy);
    ShuffleIsUnbiased(s, t);
    var picks :| FullDraw(|s|, picks) && Swaps(s, |s|, picks) == t;
    EveryArrangementOccurs(upper, lower, digits, easy, values, picks);
  }
}
