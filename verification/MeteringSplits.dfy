/** Metering without rounding: charging often charges the same as charging once. */
module MeteringSplits {
  import opened Outcomes
  import opened Billing

  /** The cents charged over several passes when every carried fraction is kept
      exactly. */
  function ChargedOver(carried: real, dues: seq<real>): int
    decreases dues
  {
    if dues == [] then 0
    else
      var total := carried + dues[0];
      total.Floor + ChargedOver(total - total.Floor as real, dues[1..])
  }

  function Total(dues: seq<real>): real {
    if dues == [] then 0.0 else dues[0] + Total(dues[1..])
  }

  lemma FloorShift(x: real, n: int)
    ensures (x + n as real).Floor == x.Floor + n
  {
  }

  /** The whole cents of several dues are those of their total. */
  lemma {:induction false} WholeCentsOfTotal(carried: real, dues: seq<real>)
    requires 0.0 <= carried < 1.0
    ensures ChargedOver(carried, dues) == (carried + Total(dues)).Floor
    decreases dues
  {
    if dues != [] {
      var total := carried + dues[0];
      WholeCentsOfTotal(total - total.Floor as real, dues[1..]);
      FloorShift(total - total.Floor as real + Total(dues[1..]), total.Floor);
    }
  }

  /** Passes at these times, none longer than 31 days after the one before. */
  ghost predicate Gaps(start: int, times: seq<int>)
    decreases times
  {
    times == [] || (0 <= times[0] - start <= 2678400000000 && Gaps(times[0], times[1..]))
  }

  function End(start: int, times: seq<int>): int {
    if times == [] then start else times[|times| - 1]
  }

  function Dues(start: int, times: seq<int>, cost: real): seq<real>
    decreases times
  {
    if times == [] then [] else [Due(Hours(start, times[0]), cost)] + Dues(times[0], times[1..], cost)
  }

  lemma DueAdds(a: real, b: real, cost: real)
    ensures Due(a, cost) + Due(b, cost) == Due(a + b, cost)
  {
    assert cost * a + cost * b == cost * (a + b);
  }

  lemma {:induction false} DuesTotal(start: int, times: seq<int>, cost: real)
    requires Gaps(start, times)
    ensures Total(Dues(start, times, cost)) == Due((End(start, times) - start) as real / 3600000000.0, cost)
    ensures start <= End(start, times)
    decreases times
  {
    hide Due;
    if times == [] {
      NothingDue(cost);
    } else {
      DuesTotal(times[0], times[1..], cost);
      assert Dues(start, times, cost)[1..] == Dues(times[0], times[1..], cost);
      assert End(start, times) == End(times[0], times[1..]);
      var first, rest := Hours(start, times[0]), (End(start, times) - times[0]) as real / 3600000000.0;
      DueAdds(first, rest, cost);
      assert first + rest == (End(start, times) - start) as real / 3600000000.0;
    }
  }

  lemma NothingDue(cost: real)
    ensures Due(0.0, cost) == 0.0
  {
  }

  /** At constant usage, and without the rounding, any number of passes charges
      what the elapsed time costs, and so what a single pass would. */
  lemma SplittingChargesAlike(carried: real, start: int, times: seq<int>, cost: real)
    requires 0.0 <= carried < 1.0 && Gaps(start, times) && times != []
    ensures ChargedOver(carried, Dues(start, times, cost))
         == (carried + Due((End(start, times) - start) as real / 3600000000.0, cost)).Floor
    ensures End(start, times) - start <= 2678400000000 ==>
      ChargedOver(carried, Dues(start, times, cost)) == ChargedOver(carried, Dues(start, [End(start, times)], cost))
  {
    hide Due, Dues, Total, ChargedOver;
    WholeCentsOfTotal(carried, Dues(start, times, cost));
    DuesTotal(start, times, cost);
    if End(start, times) - start <= 2678400000000 {
      var once := [End(start, times)];
      OneGap(start, End(start, times));
      WholeCentsOfTotal(carried, Dues(start, once, cost));
      DuesTotal(start, once, cost);
    }
  }

  lemma OneGap(start: int, end: int)
    requires 0 <= end - start <= 2678400000000
    ensures Gaps(start, [end]) && End(start, [end]) == end
  {
    assert [end][1..] == [];
  }

  // ------------------------------------------------- what rounding makes of a fraction

  /** The part of a cent that is left of what is due. */
  function Fraction(accrued: real, due: real): (f: real)
    requires accrued >= 0.0 && due >= 0.0
    ensures 0.0 <= f < 1.0
  {
    accrued + due - Whole(accrued, due) as real
  }

  /** A fraction is stored as a whole cent exactly when it is within half a
      millionth of one. */
  lemma StoredIsOneExactly(x: real)
    requires 0.0 <= x < 1.0
    ensures Stored(x) == 1.0 <==> x >= 0.9999995
  {
    var scaled := x * 1000000.0 + 0.5;
    assert scaled < 1000000.5;
    assert scaled.Floor == 1000000 <==> scaled >= 1000000.0;
  }

  /** What a pass does to the stored accrual, reload, pause and warning aside. */
  lemma PassStores(c: Config, b: Books, t: Tenant, now: int, users: nat, bytes: nat, reply: Reply)
    requires t in b.accounts && b.accounts[t].accrued >= 0.0 && c.enabled && b.accounts[t].lastMetered.Some?
    ensures
      var a, b' := b.accounts[t], Meter(c, b, t, now, users, bytes, reply);
      && t in b'.accounts
      && b'.accounts[t].accrued == Carried(a.accrued, Due(Hours(a.lastMetered.value, now), MonthlyCost(c, users, bytes)))
  {
    hide Hours, Due, Whole, Carried, MonthlyCost, RefUsed, Accrue, Reload, Pause, Warn;
    var cost := MonthlyCost(c, users, bytes);
    AccrueStores(b, t, now, cost);
    var b1 := Accrue(b, t, now, cost);
    RestStores(c, b1, t, now, reply);
  }

  lemma AccrueStores(b: Books, t: Tenant, now: int, cost: real)
    requires t in b.accounts && b.accounts[t].accrued >= 0.0 && b.accounts[t].lastMetered.Some? && cost >= 0.0
    ensures
      var a := b.accounts[t];
      Accrue(b, t, now, cost).accounts[t].accrued == Carried(a.accrued, Due(Hours(a.lastMetered.value, now), cost))
  {
    hide Hours, Due, Whole, Carried;
  }

  lemma RestStores(c: Config, b: Books, t: Tenant, now: int, reply: Reply)
    requires t in b.accounts
    ensures Warn(Pause(Reload(c, b, t, now, reply), t, now), t, now).accounts[t].accrued == b.accounts[t].accrued
  {
    hide RefUsed;
  }

  /** A pass leaves a stored accrual of a whole cent exactly when what is due leaves
      a fraction within half a millionth of one. */
  lemma PassStoresOneExactly(c: Config, b: Books, t: Tenant, now: int, users: nat, bytes: nat, reply: Reply)
    requires t in b.accounts && b.accounts[t].accrued >= 0.0 && c.enabled && b.accounts[t].lastMetered.Some?
    ensures
      var a, b' := b.accounts[t], Meter(c, b, t, now, users, bytes, reply);
      t in b'.accounts
      && (b'.accounts[t].accrued == 1.0
          <==> Fraction(a.accrued, Due(Hours(a.lastMetered.value, now), MonthlyCost(c, users, bytes))) >= 0.9999995)
  {
    PassStores(c, b, t, now, users, bytes, reply);
    hide Hours, Due, Whole, Stored, MonthlyCost, Meter;
    var a := b.accounts[t];
    StoredIsOneExactly(Fraction(a.accrued, Due(Hours(a.lastMetered.value, now), MonthlyCost(c, users, bytes))));
  }
}
