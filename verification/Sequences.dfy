/** Where a value first stands in a sequence, and where the values kept of one stand. */
module Sequences {

  /** The first index of a value, or the length if it is not there. */
  function IndexIn<T(==)>(s: seq<T>, x: T): (k: nat)
    ensures k <= |s|
    ensures x in s <==> k < |s|
    ensures k < |s| ==> s[k] == x
    ensures forall j :: 0 <= j < k ==> s[j] != x
  {
    if s == [] || s[0] == x then 0
    else
      var k := IndexIn(s[1..], x);
      assert forall j :: 0 < j < k + 1 ==> s[j] == s[1..][j - 1];
      k + 1
  }

  /** What is kept of a list stands at these places of it, in its order. */
  ghost predicate StandsAt<T>(kept: seq<T>, all: seq<T>, at: seq<nat>) {
    && |at| == |kept|
    && (forall i, j :: 0 <= i < j < |at| ==> at[i] < at[j])
    && (forall i :: 0 <= i < |at| ==> at[i] < |all| && kept[i] == all[at[i]])
  }

  /** The same places one further on. */
  function Shifted(at: seq<nat>): (later: seq<nat>)
    ensures |later| == |at| && forall i :: 0 <= i < |at| ==> later[i] == at[i] + 1
  {
    seq(|at|, i requires 0 <= i < |at| => at[i] + 1)
  }

  lemma ShiftedMembers(at: seq<nat>, k: nat)
    ensures k in Shifted(at) <==> k > 0 && k - 1 in at
    ensures k in [0] + Shifted(at) <==> k == 0 || k - 1 in at
  {
    if k > 0 && k - 1 in at {
      var i :| 0 <= i < |at| && at[i] == k - 1;
      assert Shifted(at)[i] == k;
    }
  }

  lemma PlacesMoveOn<T>(kept: seq<T>, all: seq<T>, at: seq<nat>)
    requires all != [] && StandsAt(kept, all[1..], at)
    ensures StandsAt(kept, all, Shifted(at))
    ensures StandsAt([all[0]] + kept, all, [0] + Shifted(at))
  {
    hide Shifted;
  }

  /** One more value in front, kept or not. */
  lemma PlacesMove<T>(kept: seq<T>, all: seq<T>, at: seq<nat>, keep: bool) returns (moved: seq<nat>)
    requires all != [] && StandsAt(kept, all[1..], at)
    ensures StandsAt((if keep then [all[0]] else []) + kept, all, moved)
    ensures forall k: nat :: k in moved <==> (k == 0 && keep) || (k > 0 && k - 1 in at)
  {
    PlacesMoveOn(kept, all, at);
    hide StandsAt, Shifted;
    if keep {
      moved := [0] + Shifted(at);
    } else {
      moved := Shifted(at);
      assert [] + kept == kept;
    }
    forall k: nat { ShiftedMembers(at, k); }
  }

  /** One more value at the end, kept or not. */
  lemma PlacesGrow<T>(kept: seq<T>, all: seq<T>, at: seq<nat>, keep: bool) returns (grown: seq<nat>)
    requires all != [] && StandsAt(kept, all[..|all| - 1], at)
    ensures StandsAt(kept + (if keep then [all[|all| - 1]] else []), all, grown)
    ensures forall k: nat :: k in grown <==> (k == |all| - 1 && keep) || k in at
  {
    grown := at + (if keep then [|all| - 1] else []);
  }
}
