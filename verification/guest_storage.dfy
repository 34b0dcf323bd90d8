/**
 * `guestStorage` (public/js/app.js): the history a guest keeps in the
 * browser, a most-recent-first list of corrections and one of
 * reformulations, each bounded to ten entries.
 *
 * Browser storage is modelled as the object's fields: one per key the
 * history uses (`None` when the key is absent) and a map for every other key.
 * The JSON encoding of the stored lists and the clock are not part of this
 * model; the timestamp and id of a new entry are parameters.
 */
module GuestHistory {
  import opened Wrappers

  /** How many entries each list keeps. */
  const Capacity: nat := 10

  /** A saved entry: the object spread with its `timestamp` and `id`. */
  datatype Stamped<T> = Stamped(entry: T, timestamp: string, id: int)

  /**
   * `unshift(x)` followed by `splice(10)` when the list grew past ten: the new
   * entry first, then as many of the older ones, newest first, as still fit.
   */
  function PushRecent<T>(list: seq<T>, x: T): (r: seq<T>)
    ensures |r| == Min(|list| + 1, Capacity)
    ensures r[0] == x
    ensures r[1..] == list[..Min(|list|, Capacity - 1)]
  {
    var grown := [x] + list;
    if |grown| > Capacity then grown[..Capacity] else grown
  }

  function Reverse<T>(s: seq<T>): (r: seq<T>)
    ensures |r| == |s|
  {
    if s == [] then [] else Reverse(s[1..]) + [s[0]]
  }

  /** The list after saving each of `xs`, in order. */
  function PushAll<T>(list: seq<T>, xs: seq<T>): seq<T>
    decreases |xs|
  {
    if xs == [] then list else PushAll(PushRecent(list, xs[0]), xs[1..])
  }

  /** Cutting the tail of a list before taking a prefix that fits changes nothing. */
  lemma PrefixOfCutTail<T>(a: seq<T>, b: seq<T>, m: nat, n: nat)
    requires m <= |b| && n <= |a| + m
    ensures (a + b[..m])[..n] == (a + b)[..n]
  {
    forall t | 0 <= t < n
      ensures (a + b[..m])[t] == (a + b)[t]
    {
      if t >= |a| {
        assert (a + b[..m])[t] == b[t - |a|];
      }
    }
  }

  /**
   * After a series of saves the list holds the ten newest entries, newest
   * first: the saved ones in reverse order, then the older list.
   */
  lemma {:induction false} PushAllKeepsNewest<T>(list: seq<T>, xs: seq<T>)
    requires xs != [] || |list| <= Capacity
    ensures PushAll(list, xs) == (Reverse(xs) + list)[..Min(|xs| + |list|, Capacity)]
    decreases |xs|
  {
    if xs == [] {
      assert Reverse(xs) + list == list;
    } else {
      var grown := [xs[0]] + list;
      var m := Min(|list| + 1, Capacity);
      var p := PushRecent(list, xs[0]);
      var a := Reverse(xs[1..]);
      var n := Min(|xs| + |list|, Capacity);
      assert |p| == m && Min(|xs[1..]| + m, Capacity) == n;
      calc {
        PushAll(list, xs);
        PushAll(p, xs[1..]);
        { PushAllKeepsNewest(p, xs[1..]); }
        (a + p)[..n];
        { assert p == grown[..m]; PrefixOfCutTail(a, grown, m, n); }
        (a + grown)[..n];
        { assert a + grown == Reverse(xs) + list; }
        (Reverse(xs) + list)[..n];
      }
    }
  }

  /** The guest history in browser storage. */
  class GuestStorage<C, R> {
    /** The `guestCorrections` key; `None` when it is absent. */
    var corrections: Option<seq<Stamped<C>>>
    /** The `guestReformulations` key; `None` when it is absent. */
    var reformulations: Option<seq<Stamped<R>>>
    /** Every other key of the storage, which the history never touches. */
    var otherKeys: map<string, string>

    /** A storage holding no history yet. */
    constructor(otherKeys: map<string, string>)
      ensures corrections.None? && reformulations.None? && this.otherKeys == otherKeys
    {
      corrections := None;
      reformulations := None;
      this.otherKeys := otherKeys;
    }

    /** `getCorrections`: the stored list, or the empty list when the key is absent. */
    function GetCorrections(): (r: seq<Stamped<C>>)
      reads this
      ensures corrections.None? ==> r == []
      ensures corrections.Some? ==> r == corrections.value
    {
      corrections.GetOr([])
    }

    /** `getReformulations`: the stored list, or the empty list when the key is absent. */
    function GetReformulations(): (r: seq<Stamped<R>>)
      reads this
      ensures reformulations.None? ==> r == []
      ensures reformulations.Some? ==> r == reformulations.value
    {
      reformulations.GetOr([])
    }

    /**
     * `saveCorrection`: the stamped correction goes first, the list keeps at
     * most ten entries, and nothing else in the storage changes.
     */
    method SaveCorrection(correction: C, timestamp: string, id: int)
      modifies this
      ensures GetCorrections() == PushRecent(old(GetCorrections()), Stamped(correction, timestamp, id))
      ensures GetCorrections()[0] == Stamped(correction, timestamp, id)
      ensures |GetCorrections()| == Min(|old(GetCorrections())| + 1, Capacity)
      ensures GetCorrections()[1..] == old(GetCorrections())[..Min(|old(GetCorrections())|, Capacity - 1)]
      ensures reformulations == old(reformulations) && otherKeys == old(otherKeys)
    {
      var list := GetCorrections();
      list := [Stamped(correction, timestamp, id)] + list;
      if |list| > Capacity {
        list := list[..Capacity];
      }
      corrections := Some(list);
    }

    /**
     * `saveReformulation`: the stamped reformulation goes first, the list
     * keeps at most ten entries, and nothing else in the storage changes.
     */
    method SaveReformulation(reformulation: R, timestamp: string, id: int)
      modifies this
      ensures GetReformulations() == PushRecent(old(GetReformulations()), Stamped(reformulation, timestamp, id))
      ensures GetReformulations()[0] == Stamped(reformulation, timestamp, id)
      ensures |GetReformulations()| == Min(|old(GetReformulations())| + 1, Capacity)
      ensures GetReformulations()[1..] == old(GetReformulations())[..Min(|old(GetReformulations())|, Capacity - 1)]
      ensures corrections == old(corrections) && otherKeys == old(otherKeys)
    {
      var list := GetReformulations();
      list := [Stamped(reformulation, timestamp, id)] + list;
      if |list| > Capacity {
        list := list[..Capacity];
      }
      reformulations := Some(list);
    }

    /** `clearAll`: both history keys removed, every other key kept. */
    method ClearAll()
      modifies this
      ensures GetCorrections() == [] && GetReformulations() == []
      ensures corrections.None? && reformulations.None?
      ensures otherKeys == old(otherKeys)
    {
      corrections := None;
      reformulations := None;
    }
  }
}
