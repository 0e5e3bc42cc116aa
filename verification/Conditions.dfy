/** The status conditions of a TailpostAgent: a list that is meant to work as a map from condition type
    to condition.
 */
module Conditions {
  import opened Lines
  import opened Resources

  /** The first condition of the given type. */
  function Find(list: seq<Condition>, kind: string): (r: Option<nat>)
    ensures r.Some? ==> r.value < |list| && list[r.value].kind == kind
                        && forall i :: 0 <= i < r.value ==> list[i].kind != kind
    ensures r.None? ==> forall i :: 0 <= i < |list| ==> list[i].kind != kind
  {
    if list == [] then None
    else if list[0].kind == kind then Some(0)
    else
      match Find(list[1..], kind)
      case None => None
      case Some(i) =>
        assert forall j :: 0 < j < i + 1 ==> list[j] == list[1..][j - 1];
        Some(i + 1)
  }

  /** `setCondition`: an existing condition changes only with its status. */
  function WithCondition(list: seq<Condition>, c: Condition): seq<Condition> {
    match Find(list, c.kind)
    case None => list + [c]
    case Some(i) => if list[i].status == c.status then list else list[i := c]
  }

  /** `removeCondition`: drops the first condition of the given type. */
  function WithoutCondition(list: seq<Condition>, kind: string): seq<Condition> {
    match Find(list, kind)
    case None => list
    case Some(i) => list[..i] + list[i + 1..]
  }

  ghost predicate DistinctKinds(list: seq<Condition>) {
    forall i, j :: 0 <= i < j < |list| ==> list[i].kind != list[j].kind
  }

  datatype Op = Set(condition: Condition) | Remove(kind: string)

  function Run(list: seq<Condition>, ops: seq<Op>): seq<Condition>
    decreases |ops|
  {
    if ops == [] then list
    else
      var next := match ops[0] { case Set(c) => WithCondition(list, c) case Remove(k) => WithoutCondition(list, k) };
      Run(next, ops[1..])
  }

  // ----- The simple form: one condition per type -----

  function SetIn(m: map<string, Condition>, c: Condition): map<string, Condition> {
    if c.kind in m && m[c.kind].status == c.status then m else m[c.kind := c]
  }

  function RunOnMap(m: map<string, Condition>, ops: seq<Op>): map<string, Condition>
    decreases |ops|
  {
    if ops == [] then m
    else RunOnMap(match ops[0] { case Set(c) => SetIn(m, c) case Remove(k) => m - {k} }, ops[1..])
  }

  function Kinds(list: seq<Condition>): set<string> {
    set i | 0 <= i < |list| :: list[i].kind
  }

  function AsMap(list: seq<Condition>): map<string, Condition> {
    map k | k in Kinds(list) :: FindIn(list, k)
  }

  function FindIn(list: seq<Condition>, kind: string): Condition
    requires kind in Kinds(list)
  {
    list[Find(list, kind).value]
  }

  lemma FindDistinct(list: seq<Condition>, i: nat)
    requires DistinctKinds(list) && i < |list|
    ensures Find(list, list[i].kind) == Some(i)
  {
    var r := Find(list, list[i].kind);
    assert r.Some?;
  }

  /** The list represents `m`: each entry of one is an entry of the other. */
  lemma RepresentsMap(list: seq<Condition>, m: map<string, Condition>)
    requires DistinctKinds(list) && Kinds(list) == m.Keys
    requires forall i :: 0 <= i < |list| ==> list[i].kind in m && m[list[i].kind] == list[i]
    ensures AsMap(list) == m
  {
    hide Find;
    forall k | k in Kinds(list) ensures FindIn(list, k) == m[k] {
      var i :| 0 <= i < |list| && list[i].kind == k;
      FindDistinct(list, i);
    }
  }

  lemma MapHolds(list: seq<Condition>, i: nat)
    requires DistinctKinds(list) && i < |list|
    ensures list[i].kind in AsMap(list) && AsMap(list)[list[i].kind] == list[i]
  {
    FindDistinct(list, i);
    assert list[i].kind in Kinds(list);
  }

  lemma SetRefines(list: seq<Condition>, c: Condition)
    requires DistinctKinds(list)
    ensures DistinctKinds(WithCondition(list, c))
    ensures AsMap(WithCondition(list, c)) == SetIn(AsMap(list), c)
  {
    hide Find, Kinds, AsMap;
    var after, at := WithCondition(list, c), Find(list, c.kind);
    KindsAreKeys(list);
    if at.Some? {
      MapHolds(list, at.value);
      SameKinds(list, after);
    } else {
      NotFound(list, c.kind);
      AppendedKinds(list, c);
    }
    forall i | 0 <= i < |after|
      ensures after[i].kind in SetIn(AsMap(list), c) && SetIn(AsMap(list), c)[after[i].kind] == after[i]
    {
      if i < |list| {
        MapHolds(list, i);
      }
    }
    RepresentsMap(after, SetIn(AsMap(list), c));
  }

  lemma KindsAreKeys(list: seq<Condition>)
    ensures Kinds(list) == AsMap(list).Keys
  {
  }

  lemma NotFound(list: seq<Condition>, kind: string)
    requires Find(list, kind).None?
    ensures kind !in AsMap(list)
  {
  }

  lemma SameKinds(a: seq<Condition>, b: seq<Condition>)
    requires |a| == |b| && forall i :: 0 <= i < |a| ==> a[i].kind == b[i].kind
    ensures Kinds(a) == Kinds(b)
  {
    forall k ensures k in Kinds(a) <==> k in Kinds(b) {
      if k in Kinds(a) {
        var i :| 0 <= i < |a| && a[i].kind == k;
        assert b[i].kind == k;
      }
    }
  }

  lemma AppendedKinds(list: seq<Condition>, c: Condition)
    ensures Kinds(list + [c]) == Kinds(list) + {c.kind}
  {
    var after := list + [c];
    forall k ensures k in Kinds(after) <==> k in Kinds(list) || k == c.kind {
      if k in Kinds(list) {
        var i :| 0 <= i < |list| && list[i].kind == k;
        assert after[i].kind == k;
      }
      assert after[|list|].kind == c.kind;
    }
  }

  lemma RemovedKinds(list: seq<Condition>, n: nat)
    requires DistinctKinds(list) && n < |list|
    ensures DistinctKinds(list[..n] + list[n + 1..])
    ensures Kinds(list[..n] + list[n + 1..]) == Kinds(list) - {list[n].kind}
  {
    var after := list[..n] + list[n + 1..];
    assert forall i :: 0 <= i < |after| ==> after[i] == list[if i < n then i else i + 1];
    forall k ensures k in Kinds(after) <==> k in Kinds(list) && k != list[n].kind {
      if k in Kinds(list) && k != list[n].kind {
        var i :| 0 <= i < |list| && list[i].kind == k;
        assert after[if i < n then i else i - 1].kind == k;
      }
    }
  }

  lemma RemoveRefines(list: seq<Condition>, kind: string)
    requires DistinctKinds(list)
    ensures DistinctKinds(WithoutCondition(list, kind))
    ensures AsMap(WithoutCondition(list, kind)) == AsMap(list) - {kind}
  {
    hide Find, Kinds, AsMap;
    var after, at := WithoutCondition(list, kind), Find(list, kind);
    KindsAreKeys(list);
    if at.Some? {
      var n := at.value;
      RemovedKinds(list, n);
      forall i | 0 <= i < |after|
        ensures after[i].kind in AsMap(list) - {kind} && (AsMap(list) - {kind})[after[i].kind] == after[i]
      {
        MapHolds(list, if i < n then i else i + 1);
      }
      RepresentsMap(after, AsMap(list) - {kind});
    } else {
      NotFound(list, kind);
    }
  }

  /** The condition list refines a map: from distinct types, every run of sets and removals keeps them
      distinct and does to the list what it does to the map. */
  lemma {:induction false} ListRefinesMap(list: seq<Condition>, ops: seq<Op>)
    requires DistinctKinds(list)
    ensures DistinctKinds(Run(list, ops))
    ensures AsMap(Run(list, ops)) == RunOnMap(AsMap(list), ops)
    decreases |ops|
  {
    if ops != [] {
      match ops[0] {
        case Set(c) =>
          SetRefines(list, c);
          ListRefinesMap(WithCondition(list, c), ops[1..]);
        case Remove(k) =>
          RemoveRefines(list, k);
          ListRefinesMap(WithoutCondition(list, k), ops[1..]);
      }
    }
  }

  /** A transition time changes only when the status does, and then it is the time of the change. */
  lemma TransitionMarksStatusChange(list: seq<Condition>, c: Condition, i: nat)
    requires i < |list|
    ensures |list| <= |WithCondition(list, c)|
    ensures var now := WithCondition(list, c)[i];
            && now.kind == list[i].kind
            && (now.transition != list[i].transition ==> now.status != list[i].status)
            && (now.status != list[i].status ==> now == c && c.kind == list[i].kind)
  {
  }

  /** Removing the first match removes the type altogether exactly when it occurs at most once. */
  lemma RemovesAllIffUnique(list: seq<Condition>, kind: string)
    ensures kind !in Kinds(WithoutCondition(list, kind)) <==>
            (forall i, j :: 0 <= i < j < |list| ==> list[i].kind != kind || list[j].kind != kind)
  {
    var after, at := WithoutCondition(list, kind), Find(list, kind);
    if at.Some? {
      var n := at.value;
      assert forall i :: 0 <= i < |after| ==> after[i] == list[if i < n then i else i + 1];
      if j :| n < j < |list| && list[j].kind == kind {
        assert after[j - 1].kind == kind;
      }
    }
  }
}
