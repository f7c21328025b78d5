/**
  The instance pool as a value: a sequence of slots whose `active` flag says
  whether the slot is in use. Creation takes the lowest free slot; destruction
  only clears the flag.
 */
module Pool {
  import opened Wrappers
  import opened Entities

  function Bit(e: Entity): nat { if e.active then 1 else 0 }

  /** The number of active slots, which the level's counter must equal. */
  function CountActive(s: seq<Entity>): (n: nat)
    ensures n <= |s|
  {
    if s == [] then 0 else Bit(s[0]) + CountActive(s[1..])
  }

  predicate AllActive(s: seq<Entity>) { forall k :: 0 <= k < |s| ==> s[k].active }

  predicate NoneActive(s: seq<Entity>) { forall k :: 0 <= k < |s| ==> !s[k].active }

  /** Exactly the slots below n are active. */
  predicate ActivePrefix(s: seq<Entity>, n: nat)
  {
    n <= |s| && forall k :: 0 <= k < |s| ==> (s[k].active <==> k < n)
  }

  /** The first index at or after k whose slot satisfies p. */
  function FirstFrom(s: seq<Entity>, p: Entity -> bool, k: nat): (r: Option<nat>)
    requires k <= |s|
    ensures r.Some? ==> k <= r.value < |s| && p(s[r.value])
    ensures r.Some? ==> forall j :: k <= j < r.value ==> !p(s[j])
    ensures r.None? ==> forall j :: k <= j < |s| ==> !p(s[j])
    decreases |s| - k
  {
    if k == |s| then None
    else if p(s[k]) then Some(k)
    else FirstFrom(s, p, k + 1)
  }

  /** The lowest free slot, or None when every slot is in use. */
  function FirstFree(s: seq<Entity>): (r: Option<nat>)
    ensures r.Some? ==> r.value < |s| && !s[r.value].active
    ensures r.Some? ==> forall j :: 0 <= j < r.value ==> s[j].active
    ensures r.None? <==> AllActive(s)
  {
    FirstFrom(s, (e: Entity) => !e.active, 0)
  }

  /** The pool after creating e: e goes into the lowest free slot, if any. */
  function Add(s: seq<Entity>, e: Entity): seq<Entity>
  {
    match FirstFree(s)
    case None => s
    case Some(i) => s[i := e]
  }

  /** The pool after destroying slot i. */
  function Kill(s: seq<Entity>, i: nat): seq<Entity>
    requires i < |s|
  {
    if !s[i].active then s else s[i := s[i].(active := false)]
  }

  lemma {:induction false} CountUpdate(s: seq<Entity>, i: nat, e: Entity)
    requires i < |s|
    ensures CountActive(s[i := e]) == CountActive(s) - Bit(s[i]) + Bit(e)
  {
    if i > 0 {
      assert s[i := e][1..] == s[1..][i - 1 := e];
      CountUpdate(s[1..], i - 1, e);
    } else {
      assert s[i := e][1..] == s[1..];
    }
  }

  /** The count reaches the capacity exactly when every slot is in use. */
  lemma {:induction false} CountFull(s: seq<Entity>)
    ensures CountActive(s) == |s| <==> AllActive(s)
  {
    if s != [] {
      CountFull(s[1..]);
      assert AllActive(s) <==> s[0].active && AllActive(s[1..]) by {
        if s[0].active && AllActive(s[1..]) {
          forall k | 0 <= k < |s| ensures s[k].active {
            if k > 0 { assert s[k] == s[1..][k - 1]; }
          }
        }
      }
    }
  }

  /** A pool whose active slots are exactly the first n holds n live objects. */
  lemma {:induction false} CountPrefix(s: seq<Entity>, n: nat)
    requires ActivePrefix(s, n)
    ensures CountActive(s) == n
  {
    if s != [] {
      if n > 0 {
        assert ActivePrefix(s[1..], n - 1);
        CountPrefix(s[1..], n - 1);
      } else {
        assert ActivePrefix(s[1..], 0);
        CountPrefix(s[1..], 0);
      }
    }
  }

  /**
    Creation: when some slot is free, e lands in the lowest free slot, every
    other slot is unchanged and the live count grows by one; when the pool is
    full, nothing changes.
   */
  lemma AddTakesLowestFree(s: seq<Entity>, e: Entity)
    requires e.active
    ensures |Add(s, e)| == |s|
    ensures AllActive(s) ==> Add(s, e) == s
    ensures !AllActive(s) ==>
      exists i :: 0 <= i < |s| && !s[i].active && (forall j :: 0 <= j < i ==> s[j].active)
        && Add(s, e) == s[i := e]
    ensures CountActive(Add(s, e)) == CountActive(s) + (if AllActive(s) then 0 else 1)
  {
    match FirstFree(s)
    case None =>
    case Some(i) =>
      CountUpdate(s, i, e);
  }

  /** A full pool, as told by its counter alone, refuses every creation. */
  lemma FullPoolRefuses(s: seq<Entity>, e: Entity)
    requires CountActive(s) == |s|
    ensures FirstFree(s) == None && Add(s, e) == s
  {
    CountFull(s);
  }

  /**
    Destruction is idempotent: it clears the flag of one slot, changes nothing
    when the slot is already free, and the count drops by one exactly when the
    slot was active.
   */
  lemma KillClearsFlag(s: seq<Entity>, i: nat)
    requires i < |s|
    ensures Kill(s, i) == s[i := s[i].(active := false)]
    ensures Kill(Kill(s, i), i) == Kill(s, i)
    ensures !s[i].active ==> Kill(s, i) == s
    ensures CountActive(Kill(s, i)) == CountActive(s) - Bit(s[i])
  {
    if s[i].active {
      CountUpdate(s, i, s[i].(active := false));
    } else {
      assert s[i := s[i].(active := false)] == s;
    }
  }

  /** In a pool whose first n slots are in use, creation takes slot n. */
  lemma AddToPrefix(s: seq<Entity>, n: nat, e: Entity)
    requires ActivePrefix(s, n) && n < |s| && e.active
    ensures FirstFree(s) == Some(n)
    ensures Add(s, e) == s[n := e] && ActivePrefix(Add(s, e), n + 1)
  {
    var r := FirstFree(s);
    assert !s[n].active;
    assert r.Some?;
    assert r.value == n;
  }
}
