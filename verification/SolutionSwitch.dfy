/** Switching camera solutions on and off: a request names solutions, and is carried out for all of them
    or for none. */
module SolutionSwitch {

  const UINT32_MAX: nat := 0xFFFF_FFFF

  datatype Code = OK | ParamIsMissing | WrongParam

  // ---- counting ----

  /** How often a name occurs. */
  function Occurrences(names: seq<string>, name: string): nat {
    if names == [] then 0
    else Occurrences(names[..|names| - 1], name) + if names[|names| - 1] == name then 1 else 0
  }

  /** How many pairs of a requested and a supported name are equal. */
  function Matches(names: seq<string>, supported: seq<string>): nat {
    if names == [] then 0
    else Matches(names[..|names| - 1], supported) + Occurrences(supported, names[|names| - 1])
  }

  /** The counter is 32 bits wide and stops at its maximum. */
  function Saturated(n: nat): nat {
    if n < UINT32_MAX then n else UINT32_MAX
  }

  predicate Accepted(names: seq<string>, supported: seq<string>) {
    |names| == Saturated(Matches(names, supported))
  }

  // ---- what the count decides ----

  ghost predicate Distinct(names: seq<string>) {
    forall i, j :: 0 <= i < j < |names| ==> names[i] != names[j]
  }

  ghost predicate AllSupported(names: seq<string>, supported: seq<string>) {
    forall i :: 0 <= i < |names| ==> names[i] in supported
  }

  lemma {:induction false} OccursIfThere(names: seq<string>, name: string)
    ensures Occurrences(names, name) > 0 <==> name in names
    ensures Distinct(names) ==> Occurrences(names, name) <= 1
  {
    if names == [] {
    } else {
      var n := |names| - 1;
      OccursIfThere(names[..n], name);
      assert names == names[..n] + [names[n]];
      if Distinct(names) && names[n] == name {
        forall i | 0 <= i < n ensures names[..n][i] != name {
          assert names[i] != names[n];
        }
      }
    }
  }

  lemma {:induction false} MatchesOfDistinct(names: seq<string>, supported: seq<string>)
    requires Distinct(supported)
    ensures Matches(names, supported) <= |names|
    ensures Matches(names, supported) == |names| <==> AllSupported(names, supported)
  {
    if names == [] {
    } else {
      var n := |names| - 1;
      MatchesOfDistinct(names[..n], supported);
      OccursIfThere(supported, names[n]);
      assert forall i :: 0 <= i < n ==> names[i] == names[..n][i];
    }
  }

  lemma {:induction false} OccursTwice(names: seq<string>, i: nat, j: nat)
    requires i < j < |names| && names[i] == names[j]
    ensures Occurrences(names, names[j]) >= 2
  {
    var n := |names| - 1;
    if j < n {
      OccursTwice(names[..n], i, j);
    } else {
      OccursIfThere(names[..n], names[j]);
      assert names[..n][i] == names[j];
    }
  }

  /** The count accepts exactly the requests whose every name is supported, repetitions allowed, exactly
      if no two solutions carry the same name. */
  lemma AcceptsExactlySupported(supported: seq<string>)
    ensures Distinct(supported) <==>
            forall names: seq<string> :: |names| <= UINT32_MAX ==>
              (Accepted(names, supported) <==> AllSupported(names, supported))
  {
    if Distinct(supported) {
      forall names: seq<string> | |names| <= UINT32_MAX
        ensures Accepted(names, supported) <==> AllSupported(names, supported)
      {
        MatchesOfDistinct(names, supported);
      }
    } else {
      var i, j :| 0 <= i < j < |supported| && supported[i] == supported[j];
      var names := [supported[j]];
      OccursTwice(supported, i, j);
      assert names[..0] == [];
      assert Matches(names, supported) == Occurrences(supported, supported[j]);
      assert AllSupported(names, supported) && !Accepted(names, supported);
    }
  }

  /** A longer request than the counter can count is refused, whatever it names. */
  lemma TooLongIsRefused(names: seq<string>, supported: seq<string>)
    requires |names| > UINT32_MAX
    ensures !Accepted(names, supported)
  {
  }

  // ---- the objects ----

  /** A solution, and the setEnableValue requests it got. */
  class Solution {
    const name: string
    var requests: seq<bool>

    constructor (name: string)
      ensures this.name == name && requests == []
    {
      this.name := name;
      requests := [];
    }

    method SetEnableValue(value: bool)
      modifies this
      ensures requests == old(requests) + [value]
    {
      requests := requests + [value];
    }
  }

  function Repeat(value: bool, n: nat): seq<bool> {
    seq(n, _ => value)
  }

  /** The last request asked for `value`. */
  predicate Shows(requests: seq<bool>, value: bool) {
    requests != [] && requests[|requests| - 1] == value
  }

  lemma RepeatShows(before: seq<bool>, value: bool, names: seq<string>, name: string)
    ensures if name in names then Shows(before + Repeat(value, Occurrences(names, name)), value)
            else before + Repeat(value, Occurrences(names, name)) == before
  {
    OccursIfThere(names, name);
    assert name !in names ==> Repeat(value, Occurrences(names, name)) == [];
  }

  class CameraSolutionManager {
    const solutions: seq<Solution>

    /** The solutions are different objects. */
    ghost predicate Valid() {
      forall i, j :: 0 <= i < j < |solutions| ==> solutions[i] != solutions[j]
    }

    function Supported(): seq<string> {
      seq(|solutions|, i requires 0 <= i < |solutions| => solutions[i].name)
    }

    constructor (solutions: seq<Solution>)
      requires forall i, j :: 0 <= i < j < |solutions| ==> solutions[i] != solutions[j]
      ensures Valid() && this.solutions == solutions
    {
      this.solutions := solutions;
    }

    /** The counting loops: one up for every pair of equal names, as far as 32 bits go. */
    method CountCandidates(names: seq<string>) returns (count: nat)
      ensures count == Saturated(Matches(names, Supported()))
    {
      count := 0;
      for a := 0 to |names|
        invariant count == Saturated(Matches(names[..a], Supported()))
      {
        for b := 0 to |solutions|
          invariant count == Saturated(Matches(names[..a], Supported()) + Occurrences(Supported()[..b], names[a]))
        {
          assert Supported()[..b + 1][..b] == Supported()[..b];
          if names[a] == solutions[b].name {
            if count < UINT32_MAX {
              count := count + 1;
            }
          }
        }
        assert Supported()[..|solutions|] == Supported();
        assert names[..a + 1][..a] == names[..a];
      }
      assert names[..|names|] == names;
    }

    /** The inner carrying-out loop, for one name. */
    method SetMatching(name: string, value: bool)
      requires Valid()
      modifies solutions
      ensures forall k :: 0 <= k < |solutions| ==>
        solutions[k].requests == old(solutions[k].requests) + Repeat(value, if name == solutions[k].name then 1 else 0)
    {
      for b := 0 to |solutions|
        invariant forall k :: 0 <= k < b ==>
          solutions[k].requests ==
            old(solutions[k].requests) + Repeat(value, if name == solutions[k].name then 1 else 0)
        invariant forall k :: b <= k < |solutions| ==> solutions[k].requests == old(solutions[k].requests)
      {
        assert Repeat(value, 1) == [value] && Repeat(value, 0) == [];
        if name == solutions[b].name {
          solutions[b].SetEnableValue(value);
        }
      }
    }

    /** The carrying-out loops. */
    method SetAll(names: seq<string>, value: bool)
      requires Valid()
      modifies solutions
      ensures forall k :: 0 <= k < |solutions| ==>
        solutions[k].requests == old(solutions[k].requests) + Repeat(value, Occurrences(names, solutions[k].name))
    {
      assert Repeat(value, 0) == [];
      for a := 0 to |names|
        invariant forall k :: 0 <= k < |solutions| ==>
          solutions[k].requests ==
            old(solutions[k].requests) + Repeat(value, Occurrences(names[..a], solutions[k].name))
      {
        SetMatching(names[a], value);
        assert names[..a + 1][..a] == names[..a];
        forall k | 0 <= k < |solutions|
          ensures Repeat(value, Occurrences(names[..a], solutions[k].name))
                  + Repeat(value, if names[a] == solutions[k].name then 1 else 0)
               == Repeat(value, Occurrences(names[..a + 1], solutions[k].name))
        {
        }
      }
      assert names[..|names|] == names;
    }

    method EnableCameraSolution(names: seq<string>) returns (code: Code)
      requires Valid()
      modifies solutions
      ensures code == (if Accepted(names, Supported()) then OK else WrongParam)
      ensures forall k :: 0 <= k < |solutions| ==>
        solutions[k].requests == old(solutions[k].requests) +
          Repeat(true, if code == OK then Occurrences(names, solutions[k].name) else 0)
      ensures forall k :: 0 <= k < |solutions| ==>
        if code == OK && solutions[k].name in names then Shows(solutions[k].requests, true)
        else solutions[k].requests == old(solutions[k].requests)
    {
      code := Switch(names, true);
    }

    method DisableCameraSolution(names: seq<string>) returns (code: Code)
      requires Valid()
      modifies solutions
      ensures code == (if Accepted(names, Supported()) then OK else WrongParam)
      ensures forall k :: 0 <= k < |solutions| ==>
        solutions[k].requests == old(solutions[k].requests) +
          Repeat(false, if code == OK then Occurrences(names, solutions[k].name) else 0)
      ensures forall k :: 0 <= k < |solutions| ==>
        if code == OK && solutions[k].name in names then Shows(solutions[k].requests, false)
        else solutions[k].requests == old(solutions[k].requests)
    {
      code := Switch(names, false);
    }

    /** The two switches differ in the value only. The code for a missing parameter is never returned: an
        empty request has no candidates, and that many it names. */
    method Switch(names: seq<string>, value: bool) returns (code: Code)
      requires Valid()
      modifies solutions
      ensures code == (if Accepted(names, Supported()) then OK else WrongParam)
      ensures forall k :: 0 <= k < |solutions| ==>
        solutions[k].requests == old(solutions[k].requests) +
          Repeat(value, if code == OK then Occurrences(names, solutions[k].name) else 0)
      ensures forall k :: 0 <= k < |solutions| ==>
        if code == OK && solutions[k].name in names then Shows(solutions[k].requests, value)
        else solutions[k].requests == old(solutions[k].requests)
    {
      var count := CountCandidates(names);
      if |names| == count {
        SetAll(names, value);
        forall k | 0 <= k < |solutions|
          ensures if solutions[k].name in names then Shows(solutions[k].requests, value)
                  else solutions[k].requests == old(solutions[k].requests)
        {
          RepeatShows(old(solutions[k].requests), value, names, solutions[k].name);
        }
        return OK;
      }
      assert Repeat(value, 0) == [];
      if |names| == 0 {
        assert false;
      }
      return WrongParam;
    }
  }
}
