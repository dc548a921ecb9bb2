/** `SeqNumWindow` (src/window.rs): a 128-bit sliding bitmap that detects duplicate
    packet numbers, against the full set of numbers ever inserted. */
module Window {
  import opened Base
  import opened Bits

  const WINDOW_SIZE: nat := 128
  const TWO_32: nat := 0x1_0000_0000

  datatype State = State(lower: nat, window: nat)

  const EMPTY := State(0, 0)

  /** The largest number the window covers; the addition saturates at u64. */
  function Upper(s: State): int
  {
    (if s.lower + WINDOW_SIZE > U64_MAX then U64_MAX else s.lower + WINDOW_SIZE) - 1
  }

  /** `checked_shl(diff as u32).unwrap_or(0)`: the shift amount is cut to 32 bits first. */
  function Shifted(window: nat, diff: nat): nat
  {
    if diff % TWO_32 < 128 then ShiftLeft(window, diff % TWO_32, 128) else 0
  }

  function Slide(s: State, seqNum: nat): State
  {
    if seqNum > Upper(s) then State(s.lower + (seqNum - Upper(s)), Shifted(s.window, seqNum - Upper(s)))
    else s
  }

  /** The state after inserting `seqNum`. */
  function Inserted(s: State, seqNum: nat): State
    requires Valid(s) && seqNum < U64_MAX
  {
    if seqNum < s.lower then s else
    var t := Slide(s, seqNum);
    t.(window := Or(t.window, Pow2(Upper(t) - seqNum)))
  }

  predicate Contains(s: State, seqNum: nat)
  {
    if seqNum > Upper(s) then false
    else if seqNum < s.lower then true
    else And(s.window, Pow2(Upper(s) - seqNum)) != 0
  }

  /** The window never reaches past u64: the saturating addition is exact. */
  predicate Valid(s: State) { s.lower + WINDOW_SIZE <= U64_MAX }

  /** `Contains` reads one bit. */
  lemma ContainsIsBit(s: State, n: nat)
    requires Valid(s)
    ensures Contains(s, n) <==> n < s.lower || (n <= Upper(s) && Bit(s.window, Upper(s) - n))
  {
    if s.lower <= n <= Upper(s) { SingleBitMask(s.window, Upper(s) - n); }
  }

  /** What an insert does to every answer: the window moves up by `jump`, but the bits
      move by `jump % 2^32` only. */
  lemma InsertedContains(s: State, seqNum: nat, n: nat)
    requires Valid(s) && s.lower <= seqNum < U64_MAX
    ensures Valid(Inserted(s, seqNum))
    ensures
      var t := Inserted(s, seqNum);
      var jump := if seqNum > Upper(s) then seqNum - Upper(s) else 0;
      && t.lower == s.lower + jump
      && (Contains(t, n) <==>
            || n < t.lower
            || n == seqNum
            || (n <= Upper(t) && jump % TWO_32 <= Upper(t) - n < 128 && Bit(s.window, Upper(t) - n - jump % TWO_32)))
  {
    hide Contains; hide Or; hide Pow2;
    var t := Inserted(s, seqNum);
    ContainsIsBit(t, n);
    if t.lower <= n <= Upper(t) {
      var i := Upper(t) - n;
      BitOfOr(Slide(s, seqNum).window, Pow2(Upper(t) - seqNum), i);
      BitOfPow2(Upper(t) - seqNum, i);
      if seqNum > Upper(s) { ShiftedBit(s.window, seqNum - Upper(s), i); }
    }
  }

  lemma ShiftedBit(window: nat, diff: nat, i: nat)
    requires i < 128
    ensures Bit(Shifted(window, diff), i) <==> diff % TWO_32 <= i && Bit(window, i - diff % TWO_32)
  {
    if diff % TWO_32 < 128 { BitOfShift(window, diff % TWO_32, 128, i); } else { ZeroHasNoBits(i); }
  }

  // --------------------------------------------------------------------- one insert

  /** A number reported as seen stays reported as seen. */
  lemma KeepsSeen(s: State, seqNum: nat, n: nat)
    requires Valid(s) && seqNum < U64_MAX && Contains(s, n)
    ensures Contains(Inserted(s, seqNum), n)
  {
    hide Inserted; hide Contains;
    if seqNum < s.lower {
      InsertBelowWindow(s, seqNum);
    } else {
      ContainsIsBit(s, n);
      InsertedContains(s, seqNum, n);
      SmallJumpKeepsWidth(s, seqNum);
    }
  }

  lemma InsertBelowWindow(s: State, seqNum: nat)
    requires Valid(s) && seqNum < s.lower && seqNum < U64_MAX
    ensures Inserted(s, seqNum) == s
  {
  }

  lemma SmallJumpKeepsWidth(s: State, seqNum: nat)
    ensures 0 <= seqNum - Upper(s) < TWO_32 ==> (seqNum - Upper(s)) % TWO_32 == seqNum - Upper(s)
    ensures 0 % TWO_32 == 0
  {
  }

  lemma AddsInserted(s: State, seqNum: nat)
    requires Valid(s) && seqNum < U64_MAX
    ensures Valid(Inserted(s, seqNum)) && Contains(Inserted(s, seqNum), seqNum)
  {
    ContainsIsBit(s, seqNum);
    if s.lower <= seqNum { InsertedContains(s, seqNum, seqNum); }
  }

  /** The window answers correctly for the numbers `seen`: exactly those and everything
      below the window count as seen. */
  ghost predicate Exact(s: State, seen: iset<nat>)
  {
    forall n: nat :: Contains(s, n) <==> n in seen || n < s.lower
  }

  /** A recorded number whose bit survives the truncated shift: the insert jumps 2^32 or
      more, so the window should come out empty, but the bit of `n` stays inside it. */
  predicate Aliased(s: State, seqNum: nat, n: nat)
  {
    && seqNum - Upper(s) >= TWO_32
    && s.lower <= n <= Upper(s) && Contains(s, n)
    && 0 < Upper(s) - n + (seqNum - Upper(s)) % TWO_32 < 128
  }

  lemma ExactUnlessAliased(s: State, seqNum: nat, seen: iset<nat>)
    requires Valid(s) && seqNum < U64_MAX && Exact(s, seen)
    requires forall n: nat :: !Aliased(s, seqNum, n)
    ensures Exact(Inserted(s, seqNum), seen + iset{seqNum})
  {
    var t := Inserted(s, seqNum);
    forall n: nat ensures Contains(t, n) <==> n in seen + iset{seqNum} || n < t.lower {
      ExactAt(s, seqNum, seen, n);
    }
  }

  lemma ExactAt(s: State, seqNum: nat, seen: iset<nat>, n: nat)
    requires Valid(s) && seqNum < U64_MAX && Exact(s, seen)
    requires forall m: nat :: !Aliased(s, seqNum, m)
    ensures Contains(Inserted(s, seqNum), n) <==> n in seen || n == seqNum || n < Inserted(s, seqNum).lower
  {
    hide Inserted; hide Contains; hide Aliased;
    ContainsIsBit(s, n);
    if seqNum < s.lower {
      InsertBelowWindow(s, seqNum);
      ContainsIsBit(s, seqNum);
    } else {
      InsertedContains(s, seqNum, n);
      SmallJumpKeepsWidth(s, seqNum);
      if seqNum - Upper(s) >= TWO_32 { NoAlias(s, seqNum, n); }
    }
  }

  /** After a jump of 2^32 or more with nothing aliased, only the new number is set. */
  lemma NoAlias(s: State, seqNum: nat, n: nat)
    requires Valid(s) && seqNum < U64_MAX && seqNum - Upper(s) >= TWO_32
    requires forall m: nat :: !Aliased(s, seqNum, m)
    ensures
      var r := (seqNum - Upper(s)) % TWO_32;
      n < seqNum && r <= seqNum - n < 128 ==> !Bit(s.window, seqNum - n - r)
  {
    var r := (seqNum - Upper(s)) % TWO_32;
    if n < seqNum && r <= seqNum - n < 128 {
      var m: nat := Upper(s) - (seqNum - n - r);
      ContainsIsBit(s, m);
      assert !Aliased(s, seqNum, m);
    }
  }

  lemma AliasedIsWrong(s: State, seqNum: nat, seen: iset<nat>, n: nat)
    requires Valid(s) && seqNum < U64_MAX && Exact(s, seen) && Aliased(s, seqNum, n)
    ensures
      var jump := seqNum - Upper(s);
      var ghostly: nat := n + jump - jump % TWO_32;
      Contains(Inserted(s, seqNum), ghostly) && ghostly !in seen + iset{seqNum} && ghostly >= Inserted(s, seqNum).lower
  {
    hide Inserted; hide Contains;
    var jump := seqNum - Upper(s);
    var ghostly: nat := n + jump - jump % TWO_32;
    ContainsIsBit(s, n);
    ContainsIsBit(s, ghostly);
    InsertedContains(s, seqNum, ghostly);
    assert !Contains(s, ghostly);
  }

  /** An insert keeps the window exact if and only if it aliases no recorded number. */
  lemma InsertExactIff(s: State, seqNum: nat, seen: iset<nat>)
    requires Valid(s) && seqNum < U64_MAX && Exact(s, seen)
    ensures Exact(Inserted(s, seqNum), seen + iset{seqNum}) <==> forall n: nat :: !Aliased(s, seqNum, n)
  {
    if n: nat :| Aliased(s, seqNum, n) {
      AliasedIsWrong(s, seqNum, seen, n);
    } else {
      ExactUnlessAliased(s, seqNum, seen);
    }
  }

  // --------------------------------------------------------------------- whole runs

  datatype History = Start | Then(before: History, seqNum: nat)

  predicate U64(h: History)
  {
    h.Then? ==> h.seqNum < U64_MAX && U64(h.before)
  }

  ghost function Seen(h: History): iset<nat>
  {
    match h case Start => iset{} case Then(b, n) => Seen(b) + iset{n}
  }

  function Run(h: History): (s: State)
    requires U64(h)
    ensures Valid(s)
  {
    match h
    case Start => EMPTY
    case Then(b, n) => AddsInserted(Run(b), n); Inserted(Run(b), n)
  }

  /** No insert jumps 2^32 or more past the upper end of the window. */
  predicate SmallJumps(h: History)
    requires U64(h)
  {
    h.Then? ==> SmallJumps(h.before) && h.seqNum - Upper(Run(h.before)) < TWO_32
  }

  /** No duplicate ever slips through: in every run, every inserted number is reported. */
  lemma {:induction false} NoDuplicateMissed(h: History, n: nat)
    requires U64(h) && n in Seen(h)
    ensures Contains(Run(h), n)
  {
    if n == h.seqNum {
      AddsInserted(Run(h.before), n);
    } else {
      NoDuplicateMissed(h.before, n);
      KeepsSeen(Run(h.before), h.seqNum, n);
    }
  }

  lemma EmptyIsExact()
    ensures Exact(EMPTY, iset{})
  {
    forall n: nat ensures !Contains(EMPTY, n) {
      ContainsIsBit(EMPTY, n);
      if n <= Upper(EMPTY) { ZeroHasNoBits(Upper(EMPTY) - n); }
    }
  }

  /** No insert of the run finds a recorded number whose bit it would misplace. */
  ghost predicate NeverAliases(h: History)
    requires U64(h)
  {
    h.Then? ==> NeverAliases(h.before) && forall n: nat :: !Aliased(Run(h.before), h.seqNum, n)
  }

  /** The window answered correctly all along the run. */
  ghost predicate ExactAllAlong(h: History)
    requires U64(h)
  {
    Exact(Run(h), Seen(h)) && (h.Then? ==> ExactAllAlong(h.before))
  }

  /** In every run, the window answers correctly all along if and only if no insert
      aliases a recorded number. */
  lemma {:induction false} ExactIffNeverAliases(h: History)
    requires U64(h)
    ensures ExactAllAlong(h) <==> NeverAliases(h)
  {
    hide Exact; hide Aliased; hide Inserted;
    match h
    case Start => EmptyIsExact();
    case Then(b, n) =>
      ExactIffNeverAliases(b);
      if ExactAllAlong(b) { InsertExactIff(Run(b), n, Seen(b)); }
  }

  lemma {:induction false} SmallJumpsNeverAlias(h: History)
    requires U64(h) && SmallJumps(h)
    ensures NeverAliases(h)
  {
    if h.Then? { SmallJumpsNeverAlias(h.before); }
  }

  /** With jumps below 2^32 nothing new is taken for a duplicate inside the window. */
  lemma RunIsExact(h: History)
    requires U64(h) && SmallJumps(h)
    ensures Exact(Run(h), Seen(h))
  {
    SmallJumpsNeverAlias(h);
    ExactIffNeverAliases(h);
  }

  /** The largest number inserted. */
  function Largest(h: History): nat
    requires h.Then?
  {
    if h.before.Start? || Largest(h.before) < h.seqNum then h.seqNum else Largest(h.before)
  }

  /** The window reaches from the largest number inserted to 127 below it. */
  lemma {:induction false} WindowSpan(h: History)
    requires U64(h) && h.Then?
    ensures Run(h).lower == if Largest(h) < 127 then 0 else Largest(h) - 127
  {
    hide Contains; hide Or; hide Shifted;
    if h.before.Then? { WindowSpan(h.before); }
  }

  /** So with small jumps a new number is taken for a duplicate if and only if it is 128 or
      more below the largest one. */
  lemma NewNumberRefusedIff(h: History, n: nat)
    requires U64(h) && h.Then? && SmallJumps(h) && n !in Seen(h)
    ensures Contains(Run(h), n) <==> n + 128 <= Largest(h)
  {
    WindowSpan(h);
    RunIsExact(h);
  }

  /** The truncated shift is observable: after 1 and 2^32 + 127, the number 2^32 + 1 is
      reported although it was never inserted. */
  lemma LargeJumpIsWrong()
    ensures
      var h := Then(Then(Start, 1), TWO_32 + 127);
      U64(h) && TWO_32 + 1 !in Seen(h) && Contains(Run(h), TWO_32 + 1) && TWO_32 + 1 >= Run(h).lower
  {
    hide Inserted; hide Contains;
    var s := Run(Then(Start, 1));
    RunIsExact(Start);
    InsertedContains(EMPTY, 1, 1);
    RunIsExact(Then(Start, 1));
    assert Aliased(s, TWO_32 + 127, 1);
    AliasedIsWrong(s, TWO_32 + 127, Seen(Then(Start, 1)), 1);
    InsertedContains(s, TWO_32 + 127, 1);
  }

  // --------------------------------------------------------------------- the object

  class SeqNumWindow {
    var lower: nat
    var window: nat

    function Abs(): State
      reads this
    {
      State(lower, window)
    }

    constructor ()
      ensures Abs() == EMPTY
    {
      lower, window := 0, 0;
    }

    method UpperEnd() returns (u: int)
      ensures u == Upper(Abs())
    {
      u := (if lower + WINDOW_SIZE > U64_MAX then U64_MAX else lower + WINDOW_SIZE) - 1;
    }

    method Insert(seqNum: nat)
      requires Valid(Abs()) && seqNum < U64_MAX
      modifies this
      ensures Abs() == Inserted(old(Abs()), seqNum)
      ensures Valid(Abs())
    {
      AddsInserted(Abs(), seqNum);
      if seqNum < lower { return; }
      var upper := UpperEnd();
      if seqNum > upper {
        var diff := seqNum - upper;
        lower := lower + diff;
        window := if diff % TWO_32 < 128 then ShiftLeft(window, diff % TWO_32, 128) else 0;
      }
      upper := UpperEnd();
      window := Or(window, Pow2(upper - seqNum));
    }

    method Check(seqNum: nat) returns (b: bool)
      requires Valid(Abs())
      ensures b == Contains(Abs(), seqNum)
    {
      var upper := UpperEnd();
      if seqNum > upper { return false; }
      if seqNum < lower { return true; }
      b := And(window, Pow2(upper - seqNum)) != 0;
    }
  }
}
