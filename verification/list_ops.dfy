/**
 * The two id-keyed list updates the dashboard performs on its task,
 * attendance and user lists: `list.filter(x => x.id !== id)` and
 * `list.map(x => x.id === updated.id ? updated : x)`. The key is passed in
 * so that one definition serves every record type.
 */
module ListOps {
  import opened Seqs

  /** The number of elements whose key is `id`. */
  function CountKey<T>(s: seq<T>, key: T -> string, id: string): (n: nat)
    ensures n <= |s|
    decreases |s|
  {
    if |s| == 0 then 0 else (if key(s[0]) == id then 1 else 0) + CountKey(s[1..], key, id)
  }

  /** `s.filter(x => key(x) !== id)`. */
  function RemoveById<T>(s: seq<T>, key: T -> string, id: string): (r: seq<T>)
    ensures IsSubseq(r, s)
    ensures forall i :: 0 <= i < |r| ==> key(r[i]) != id
    ensures forall i :: 0 <= i < |s| && key(s[i]) != id ==> s[i] in r
  {
    Filter(x => key(x) != id, s)
  }

  /** Deleting removes exactly the elements with that id: the length drops by their number. */
  lemma {:induction false} RemoveByIdCount<T>(s: seq<T>, key: T -> string, id: string)
    ensures |RemoveById(s, key, id)| == |s| - CountKey(s, key, id)
    decreases |s|
  {
    if |s| > 0 {
      RemoveByIdCount(s[1..], key, id);
    }
  }

  /** Deleting an id that no element carries changes nothing. */
  lemma RemoveByIdAbsent<T>(s: seq<T>, key: T -> string, id: string)
    requires forall i :: 0 <= i < |s| ==> key(s[i]) != id
    ensures RemoveById(s, key, id) == s
  {
    FilterAll(x => key(x) != id, s);
  }

  /** Deleting the same id twice is deleting it once. */
  lemma RemoveByIdIdempotent<T>(s: seq<T>, key: T -> string, id: string)
    ensures RemoveById(RemoveById(s, key, id), key, id) == RemoveById(s, key, id)
  {
    FilterIdempotent(x => key(x) != id, s);
  }

  /** `s.map(x => key(x) === key(updated) ? updated : x)`. */
  function ReplaceById<T>(s: seq<T>, key: T -> string, updated: T): (r: seq<T>)
    ensures |r| == |s|
  {
    seq(|s|, i requires 0 <= i < |s| => if key(s[i]) == key(updated) then updated else s[i])
  }

  /**
   * Replacing keeps the length and every key in place, puts `updated` at
   * every position whose key matched, and leaves every other element as it was.
   */
  lemma ReplaceByIdEffect<T>(s: seq<T>, key: T -> string, updated: T)
    ensures forall i :: 0 <= i < |s| ==> key(ReplaceById(s, key, updated)[i]) == key(s[i])
    ensures forall i :: 0 <= i < |s| && key(s[i]) == key(updated) ==> ReplaceById(s, key, updated)[i] == updated
    ensures forall i :: 0 <= i < |s| && key(s[i]) != key(updated) ==> ReplaceById(s, key, updated)[i] == s[i]
  {
  }

  /** Replacing with the same element twice is replacing once. */
  lemma ReplaceByIdIdempotent<T>(s: seq<T>, key: T -> string, updated: T)
    ensures ReplaceById(ReplaceById(s, key, updated), key, updated) == ReplaceById(s, key, updated)
  {
    var r := ReplaceById(s, key, updated);
    ReplaceByIdEffect(s, key, updated);
    ReplaceByIdEffect(r, key, updated);
  }

  /** Replacing an element whose id nothing carries changes nothing. */
  lemma ReplaceByIdAbsent<T>(s: seq<T>, key: T -> string, updated: T)
    requires forall i :: 0 <= i < |s| ==> key(s[i]) != key(updated)
    ensures ReplaceById(s, key, updated) == s
  {
  }
}
